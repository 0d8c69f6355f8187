/** How far the pool can grow, over whole runs, and for which pools no wake-up is ever lost. */
module PoolPeak {
  import opened Counting
  import opened Numbers
  import opened PoolMachine
  import opened PoolLocks
  import opened PoolRing
  import opened PoolWakeups
  import opened PoolSize
  import opened PoolTheorems

  /** The manager can see the backlog line 184 asks for, and may start somebody then. */
  predicate Grows(c: Config) { c.vary >= 1 && c.minWait <= c.capacity }

  /** The highest value live_thr_num can take: max_thr_num, unless the slots run out before. */
  function Peak(c: Config): nat
    requires c.minThr <= c.maxThr
  {
    if Grows(c) then Min(c.maxThr, c.live0 + (c.maxThr - c.minThr)) else c.live0
  }

  /** The most workers there can be at once. */
  function Crew(c: Config): int
    requires c.minThr <= c.maxThr
  {
    Peak(c) + c.minThr - c.live0
  }

  /** Workers can be told to leave, and there can be one. */
  predicate CanStrand(c: Config)
    requires c.minThr <= c.maxThr
  {
    c.vary >= 1 && Peak(c) > c.minThr && Crew(c) >= 1
  }

  /** Workers can be told to leave, and one that leaves can leave another behind. */
  predicate CanLose(c: Config)
    requires c.minThr <= c.maxThr
  {
    c.vary >= 1 && Peak(c) > c.minThr && Crew(c) >= 2
  }

  // Growth.

  predicate HasSnapshot(pc: MPc) {
    pc in {M176, M177, M179, M180, M181, M184, M186, M189, M193, M195, M196, M197, M200}
  }

  ghost predicate GrowthInv(c: Config, s: State) {
    && (HasSnapshot(s.mgr.pc) ==> s.mgr.size <= c.capacity)
    && (!Grows(c) ==> |s.workers| == c.minThr)
  }

  lemma GrowthManager(c: Config, s: State, pick: nat)
    requires GrowthInv(c, s) && ManagerTested(c, s.sh, s.mgr) && s.sh.size <= c.capacity
    ensures GrowthInv(c, ManagerStep(c, s, pick))
  {
  }

  lemma GrowthStep(c: Config, s: State, a: Action)
    requires Inv(c, s) && GrowthInv(c, s) && c.capacity >= 1 && Enabled(s, a)
    ensures GrowthInv(c, Step(c, s, a)) && |Step(c, s, a).workers| >= |s.workers|
  {
    match a
    case Work(i) => WorkerLocal(c, s, i);
    case Produce(j, task, pick) => ProducerLocal(c, s, j, task, pick);
    case Manage(pick) =>
      GrowthManager(c, s, pick);
      ManagerBooks(c, s, pick);
    case Destroy =>
    case SpuriousW(i) =>
    case SpuriousP(j) =>
  }

  lemma CrewBound(c: Config, s: State)
    requires c.minThr <= c.maxThr && SizeInv(c, s) && GrowthInv(c, s)
    ensures s.sh.live <= Peak(c) && |s.workers| <= c.maxThr
    ensures |s.workers| - Count(s.workers, Gone) <= Crew(c)
  {
    CountBound(s.sh.threads, Used);
  }

  // Pools from which nobody can leave.

  predicate NobodyLeaves(c: Config)
    requires c.minThr <= c.maxThr
  {
    c.vary == 0 || Peak(c) <= c.minThr
  }

  predicate Stays(c: Config, w: Worker) {
    w.pc !in {W108, W109, WExit} && (c.vary == 0 ==> w.pc != W105)
  }

  ghost predicate StayInv(c: Config, s: State) {
    forall i :: 0 <= i < |s.workers| ==> Stays(c, s.workers[i])
  }

  lemma StayWait(c: Config, s: State, i: nat)
    requires i < |s.workers| && Stays(c, s.workers[i])
    requires s.workers[i].pc == W102 ==> c.vary > 0
    requires s.workers[i].pc == W105 && c.vary > 0 ==> s.sh.live <= c.minThr
    ensures Stays(c, WaitStep(c, s, i).workers[i])
  {
  }

  lemma StayWorker(c: Config, s: State, i: nat)
    requires c.minThr <= c.maxThr && NobodyLeaves(c) && Inv(c, s) && GrowthInv(c, s) && StayInv(c, s)
    requires c.capacity >= 1 && WorkerEnabled(s, i)
    ensures StayInv(c, WorkerStep(c, s, i))
  {
    CrewBound(c, s);
    WorkerLocal(c, s, i);
    var pc := s.workers[i].pc;
    assert pc == W102 ==> Holder(s) == HeldW(s.workers[i]);
    if !Taking(pc) && !Running(pc) {
      StayWait(c, s, i);
    }
  }

  lemma StayStep(c: Config, s: State, a: Action)
    requires c.minThr <= c.maxThr && NobodyLeaves(c) && Inv(c, s) && GrowthInv(c, s) && StayInv(c, s)
    requires c.capacity >= 1 && Enabled(s, a)
    ensures StayInv(c, Step(c, s, a))
  {
    hide RingInv, TaskInv, WakeInv, RoomInv, QuitInv, SizeInv;
    match a
    case Work(i) => StayWorker(c, s, i);
    case Produce(j, task, pick) => ProducerLocal(c, s, j, task, pick);
    case Manage(pick) => ManagerLocal(c, s, pick);
    case Destroy =>
    case SpuriousW(i) =>
    case SpuriousP(j) =>
  }

  // Pools that never have two workers at once.

  ghost predicate LoneInv(s: State) {
    !s.sh.shutdown && SomeoneAsleep(s.workers) ==> s.sh.size <= if SignalDue(Holder(s)) then 1 else 0
  }

  /** While one of two workers sleeps, the other is gone if there is only one crew member. */
  lemma {:induction false} OnlyOneHere(ws: seq<Worker>, i: nat, k: nat)
    requires i < |ws| && k < |ws| && i != k && |ws| - Count(ws, Gone) <= 1 && !Gone(ws[k])
    ensures Gone(ws[i])
  {
    var n := |ws| - 1;
    if i < n && k < n {
      OnlyOneHere(ws[..n], i, k);
    } else {
      CountBound(ws[..n], Gone);
      assert i < n ==> ws[..n][i] == ws[i];
      assert k < n ==> ws[..n][k] == ws[k];
    }
  }

  /** A worker that is gone does nothing; one that falls asleep has seen an empty queue. */
  lemma LoneWorker(c: Config, s: State, i: nat)
    requires Inv(c, s) && LoneInv(s) && |s.workers| - Count(s.workers, Gone) <= 1
    requires c.capacity >= 1 && WorkerEnabled(s, i)
    ensures LoneInv(WorkerStep(c, s, i))
  {
    var s' := WorkerStep(c, s, i);
    WorkerLocal(c, s, i);
    if !s.sh.shutdown && SomeoneAsleep(s'.workers) {
      var k :| 0 <= k < |s'.workers| && s'.workers[k].pc == WSleep;
      if k != i {
        OnlyOneHere(s.workers, i, k);
      } else {
        assert s.workers[i].pc == W97 ==> Holder(s) == HeldW(s.workers[i]);
        WakeLocal(c, s, i);
      }
    }
  }

  lemma LoneProducer(c: Config, s: State, j: nat, task: Task, pick: nat)
    requires Inv(c, s) && LoneInv(s) && |s.workers| - Count(s.workers, Gone) <= 1
    requires c.capacity >= 1 && ProducerEnabled(s, j, pick)
    ensures LoneInv(ProducerStep(c, s, j, task, pick))
  {
    hide CounterInv, RingInv, TaskInv, WakeInv, RoomInv, QuitInv, SizeInv;
    var s' := ProducerStep(c, s, j, task, pick);
    if s.producers[j].pc == P325 && SomeoneAsleep(s'.workers) {
      var k :| 0 <= k < |s'.workers| && s'.workers[k].pc == WSleep;
      OnlyOneHere(s.workers, pick, k);
      assert false;
    }
  }

  /** A birth while somebody sleeps would make a crew of two. */
  lemma NoBirthBesideSleeper(ws: seq<Worker>, ws': seq<Worker>)
    requires ws' == ws + [Worker(WEnter, Task(NULL, NULL), 0)] && |ws'| - Count(ws', Gone) <= 1
    ensures !SomeoneAsleep(ws')
  {
    if SomeoneAsleep(ws') {
      var k :| 0 <= k < |ws'| && ws'[k].pc == WSleep;
      OnlyOneHere(ws', |ws|, k);
      assert false;
    }
  }

  lemma LoneManager(c: Config, s: State, pick: nat)
    requires c.minThr <= c.maxThr && Crew(c) <= 1 && c.capacity >= 1
    requires Inv(c, s) && LoneInv(s) && ManagerEnabled(s, pick)
    requires var s' := ManagerStep(c, s, pick); Inv(c, s') && GrowthInv(c, s')
    ensures LoneInv(ManagerStep(c, s, pick))
  {
    hide CounterInv, RingInv, TaskInv, WakeInv, RoomInv, QuitInv, SizeInv, GrowthInv, Count;
    var s' := ManagerStep(c, s, pick);
    ManagerWakes(c, s, pick);
    CrewBound(c, s');
    hide ManagerStep, Crew, Peak, PickOk;
    if |s'.workers| > |s.workers| {
      NoBirthBesideSleeper(s.workers, s'.workers);
    }
  }

  lemma LoneSame(s: State, s': State)
    requires LoneInv(s) && WorkersWoken(s.workers, s'.workers) && |s'.producers| == |s.producers|
    requires s'.lock == s.lock && s'.sh.size == s.sh.size && (s.sh.shutdown ==> s'.sh.shutdown)
    requires SignalDue(Holder(s')) == SignalDue(Holder(s))
    ensures LoneInv(s')
  {
    assert forall k :: 0 <= k < |s'.workers| && s'.workers[k].pc == WSleep ==> s.workers[k].pc == WSleep;
  }

  lemma LoneRest(c: Config, s: State, a: Action)
    requires LoneInv(s) && c.capacity >= 1 && Enabled(s, a) && (a.Destroy? || a.SpuriousW? || a.SpuriousP?)
    ensures LoneInv(Step(c, s, a))
  {
    hide LoneInv;
    match a
    case Destroy => LoneSame(s, DestroyStep(s));
    case SpuriousW(i) => LoneSame(s, GoW(s, i, WWoken));
    case SpuriousP(j) => LoneSame(s, GoP(s, j, PWoken));
  }

  lemma LoneStep(c: Config, s: State, a: Action)
    requires c.minThr <= c.maxThr && Crew(c) <= 1 && c.capacity >= 1
    requires Inv(c, s) && GrowthInv(c, s) && LoneInv(s) && Enabled(s, a)
    ensures LoneInv(Step(c, s, a))
  {
    CrewBound(c, s);
    hide Inv, GrowthInv, LoneInv, Count, WorkerStep, ProducerStep, ManagerStep;
    match a
    case Work(i) => LoneWorker(c, s, i);
    case Produce(j, task, pick) => LoneProducer(c, s, j, task, pick);
    case Manage(pick) =>
      GrowthStep(c, s, a);
      StepInv(c, s, a, Step(c, s, a));
      LoneManager(c, s, pick);
    case _ => LoneRest(c, s, a);
  }

  // Pools that never have a worker.

  /** A first birth would make a crew of one. */
  lemma EmptyStep(c: Config, s: State, a: Action)
    requires c.minThr <= c.maxThr && Crew(c) <= 0 && c.capacity >= 1
    requires Inv(c, s) && s.workers == [] && Enabled(s, a)
    requires SizeInv(c, Step(c, s, a)) && GrowthInv(c, Step(c, s, a))
    ensures Step(c, s, a).workers == []
  {
    var s' := Step(c, s, a);
    hide RingInv, TaskInv, WakeInv, RoomInv, QuitInv;
    match a
    case Manage(pick) =>
      ManagerLocal(c, s, pick);
      CrewBound(c, s');
      CountBound(s'.workers, Gone);
    case Produce(j, task, pick) => ProducerLocal(c, s, j, task, pick);
    case _ =>
  }

  // Every run.

  ghost predicate PeakInv(c: Config, s: State) {
    && c.minThr <= c.maxThr && Inv(c, s) && GrowthInv(c, s)
    && (NobodyLeaves(c) ==> StayInv(c, s))
    && (Crew(c) <= 1 ==> LoneInv(s))
    && (Crew(c) <= 0 ==> s.workers == [])
  }

  lemma PeakInit(c: Config, s: State)
    requires ValidConfig(c) && Init(c, s)
    ensures PeakInv(c, s)
  {
    InitInv(c, s);
    hide Inv;
  }

  lemma PeakStep(c: Config, s: State, a: Action, s': State)
    requires PeakInv(c, s) && Next(c, s, a, s')
    ensures PeakInv(c, s') && |s'.workers| >= |s.workers|
  {
    StepInv(c, s, a, s');
    GrowthStep(c, s, a);
    if NobodyLeaves(c) {
      StayStep(c, s, a);
    }
    if Crew(c) <= 1 {
      LoneStep(c, s, a);
    }
    if Crew(c) <= 0 {
      EmptyStep(c, s, a);
    }
  }

  lemma {:induction false} RunPeak(c: Config, run: seq<State>, acts: seq<Action>, k: nat)
    requires IsRun(c, run, acts) && k <= |acts|
    ensures PeakInv(c, run[k])
  {
    hide *;
    RunShape(c, run, acts);
    if k == 0 {
      PeakInit(c, run[0]);
    } else {
      RunPeak(c, run, acts, k - 1);
      StepOf(c, run, acts, k - 1);
      PeakStep(c, run[k - 1], acts[k - 1], run[k]);
    }
  }

  lemma ReachablePeak(c: Config, s: State)
    requires Reachable(c, s)
    ensures PeakInv(c, s)
  {
    hide PeakInv;
    var run, acts :| IsRun(c, run, acts) && run[|acts|] == s;
    RunPeak(c, run, acts, |acts|);
  }

  /** live_thr_num never passes its peak, and there are never more workers than the crew. */
  lemma LiveStaysBelowPeak(c: Config, s: State)
    requires Reachable(c, s)
    ensures c.minThr <= c.maxThr && s.sh.live <= Peak(c)
    ensures |s.workers| - Count(s.workers, Gone) <= Crew(c)
  {
    hide Reachable, SizeInv, GrowthInv;
    ReachablePeak(c, s);
    CrewBound(c, s);
  }

  /** Every slot of `threads` is used, or the manager never starts anybody. */
  predicate BirthsOver(c: Config, s: State) { |s.workers| == c.maxThr || !Grows(c) }

  /** Slots of `threads` are never emptied: once max_thr_num workers have been started, no worker is
      started again, however many of them leave. */
  lemma {:induction false} GrowthIsUsedUp(c: Config, run: seq<State>, acts: seq<Action>, k: nat, m: nat)
    requires IsRun(c, run, acts) && k <= m <= |acts| && BirthsOver(c, run[k])
    ensures |run[m].workers| == |run[k].workers|
  {
    hide *;
    RunShape(c, run, acts);
    RunPeak(c, run, acts, k);
    if k < m {
      GrowthIsUsedUp(c, run, acts, k, m - 1);
      RunPeak(c, run, acts, m - 1);
      RunPeak(c, run, acts, m);
      StepOf(c, run, acts, m - 1);
      PeakStep(c, run[m - 1], acts[m - 1], run[m]);
      BornBound(c, run[k], run[m]);
    }
  }

  lemma BornBound(c: Config, s: State, s': State)
    requires PeakInv(c, s) && PeakInv(c, s') && BirthsOver(c, s) && |s'.workers| >= |s.workers|
    ensures |s'.workers| == |s.workers|
  {
    CrewBound(c, s);
    CrewBound(c, s');
  }

  /** Unless CanLose holds, no sleeper is forgotten: while somebody sleeps, every queued task has a
      woken worker. */
  lemma NoWakeupLost(c: Config, s: State)
    requires ValidConfig(c) && !CanLose(c)
    requires Reachable(c, s) && s.lock == Nobody && !s.sh.shutdown && SomeoneAsleep(s.workers)
    ensures s.sh.size <= Count(s.workers, Woken)
  {
    hide Reachable, Inv;
    ReachablePeak(c, s);
    WakeupsAccounted(c, s);
    if NobodyLeaves(c) {
      CountBound(s.workers, Exited);
    }
  }

  /** Unless CanStrand holds, a queued task always has somebody: a worker that neither sleeps nor has
      left. */
  lemma NoTaskStranded(c: Config, s: State) returns (i: nat)
    requires ValidConfig(c) && !CanStrand(c)
    requires Reachable(c, s) && s.lock == Nobody && !s.sh.shutdown && s.sh.size > 0 && s.workers != []
    ensures i < |s.workers| && s.workers[i].pc !in {WSleep, WExit, WQuit}
  {
    hide Reachable, LockInv, CounterInv, RingInv, TaskInv, WakeInv, RoomInv, SizeInv;
    ReachablePeak(c, s);
    i := 0;
    if s.workers[0].pc == WSleep {
      WakeupsAccounted(c, s);
      CountBound(s.workers, Exited);
      CountBound(s.workers, Woken);
      i :| i < |s.workers| && Woken(s.workers[i]);
    }
  }
}
