/** Orders to leave: what a woken worker makes of one, and how many workers one order sends away. */
module PoolShrink {
  import opened Counting
  import opened PoolMachine
  import opened PoolLocks
  import opened PoolRing
  import opened PoolWakeups
  import opened PoolSize
  import opened PoolTheorems

  // Lines 100 to 112, interleaved with every other thread.

  lemma OthersWait(c: Config, s: State, i: nat)
    requires i < |s.workers| && WorkerEnabled(s, i) && !HoldsW(s.workers[i].pc) && c.capacity >= 1
    ensures WorkerStep(c, s, i).sh.waitExit == s.sh.waitExit && WorkerStep(c, s, i).sh.live == s.sh.live
  {
    SizeLocal(c, s, i);
  }

  lemma ManagerWaits(c: Config, s: State, pick: nat)
    requires ManagerEnabled(s, pick) && !HoldsM(s.mgr.pc)
    ensures ManagerStep(c, s, pick).sh.waitExit == s.sh.waitExit && ManagerStep(c, s, pick).sh.live == s.sh.live
  {
  }

  /** While worker i is inside its section, nobody else moves it or touches the two counters. */
  lemma CountersAreHeld(c: Config, s: State, a: Action, i: nat)
    requires LockInv(s) && CounterInv(s) && c.capacity >= 1 && Enabled(s, a)
    requires i < |s.workers| && HoldsW(s.workers[i].pc) && a != Work(i)
    ensures var s' := Step(c, s, a);
      && i < |s'.workers| && s'.workers[i] == s.workers[i]
      && s'.sh.waitExit == s.sh.waitExit && s'.sh.live == s.sh.live
  {
    match a
    case Work(k) =>
      OthersWait(c, s, k);
      WorkerLocal(c, s, k);
    case Produce(j, task, pick) => ProducerLocal(c, s, j, task, pick);
    case Manage(pick) =>
      ManagerWaits(c, s, pick);
      ManagerLocal(c, s, pick);
    case _ =>
  }

  predicate Asking(pc: WPc) { pc in {W100, W102, W105, W108} }

  /** What lines 100 to 108 have made of the counters so far: told to leave by the first test, allowed to
      by the second. */
  ghost predicate AskedSoFar(c: Config, base: Shared, s: State, i: nat) {
    var told, allowed := base.waitExit > 0, base.live > c.minThr;
    && i < |s.workers|
    && match s.workers[i].pc
       case W100 => s.sh.waitExit == base.waitExit && s.sh.live == base.live
       case W102 => told && s.sh.waitExit == base.waitExit && s.sh.live == base.live
       case W105 => told && s.sh.waitExit == base.waitExit - 1 && s.sh.live == base.live
       case W108 => told && allowed && s.sh.waitExit == base.waitExit - 1 && s.sh.live == base.live
       case W109 => told && allowed && s.sh.waitExit == base.waitExit - 1 && s.sh.live == base.live - 1
       case W95 =>
         && !(told && allowed) && s.sh.live == base.live
         && s.sh.waitExit == base.waitExit - if told then 1 else 0
       case _ => false
  }

  lemma AskedStepwise(c: Config, s: State, base: Shared, i: nat)
    requires c.capacity >= 1 && AskedSoFar(c, base, s, i) && Asking(s.workers[i].pc)
    ensures AskedSoFar(c, base, WorkerStep(c, s, i), i)
  {
  }

  lemma AskedAdvances(c: Config, s: State, a: Action, base: Shared, i: nat)
    requires LockInv(s) && CounterInv(s) && c.capacity >= 1 && Enabled(s, a)
    requires AskedSoFar(c, base, s, i) && Asking(s.workers[i].pc)
    ensures AskedSoFar(c, base, Step(c, s, a), i)
  {
    if a == Work(i) {
      AskedStepwise(c, s, base, i);
    } else {
      CountersAreHeld(c, s, a, i);
    }
  }

  lemma AskedStarts(c: Config, s: State, i: nat)
    requires i < |s.workers| && s.workers[i].pc == W100
    ensures AskedSoFar(c, s.sh, s, i)
  {
  }

  /** However other threads are interleaved, a woken worker that goes from line 100 to line 109 or back to
      line 95 has done what lines 100 to 108 say: it leaves exactly when told to and above the minimum. */
  lemma {:induction false} ShrinkIsAtomic(c: Config, run: seq<State>, acts: seq<Action>, i: nat, k: nat, m: nat)
    requires IsRun(c, run, acts) && k <= m <= |acts|
    requires i < |run[k].workers| && run[k].workers[i].pc == W100
    requires forall n :: k <= n < m ==> i < |run[n].workers| && Asking(run[n].workers[i].pc)
    ensures AskedSoFar(c, run[k].sh, run[m], i)
    decreases m
  {
    hide IsRun, Next, RingInv, TaskInv, WakeInv, RoomInv, QuitInv, SizeInv, LockInv, CounterInv, AskedSoFar;
    RunShape(c, run, acts);
    if k == m {
      AskedStarts(c, run[k], i);
    } else {
      ShrinkIsAtomic(c, run, acts, i, k, m - 1);
      RunInv(c, run, acts, m - 1);
      StepOf(c, run, acts, m - 1);
      AskedAdvances(c, run[m - 1], acts[m - 1], run[k].sh, i);
    }
  }

  // How many leave on one order.

  /** Past line 102: the order has been used up by one. */
  predicate Leaving(w: Worker) { w.pc in {W105, W108, W109, WExit} }

  /** Workers that have used up the order, and how many it still stands for. */
  function Sent(s: State): int { Count(s.workers, Leaving) + s.sh.waitExit }

  predicate Orders(s: State, a: Action) { a.Manage? && s.mgr.pc == M209 }

  ghost predicate SendsNoMore(s: State, s': State, i: nat)
    requires i < |s.workers| && |s'.workers| == |s.workers|
  {
    (if Leaving(s'.workers[i]) then 1 else 0) + s'.sh.waitExit
      <= (if Leaving(s.workers[i]) then 1 else 0) + s.sh.waitExit
  }

  lemma LeavingWait(c: Config, s: State, i: nat)
    requires WorkerEnabled(s, i) && !Taking(s.workers[i].pc) && !Running(s.workers[i].pc)
    ensures SendsNoMore(s, WaitStep(c, s, i), i)
  {
  }

  lemma LeavingLocal(c: Config, s: State, i: nat)
    requires c.capacity >= 1 && WorkerEnabled(s, i)
    ensures |WorkerStep(c, s, i).workers| == |s.workers| && SendsNoMore(s, WorkerStep(c, s, i), i)
  {
    if !Taking(s.workers[i].pc) && !Running(s.workers[i].pc) {
      LeavingWait(c, s, i);
    }
  }

  lemma SentByWorker(c: Config, s: State, i: nat)
    requires LockInv(s) && CounterInv(s) && c.capacity >= 1 && WorkerEnabled(s, i)
    ensures Sent(WorkerStep(c, s, i)) <= Sent(s)
  {
    WorkerLocal(c, s, i);
    LeavingLocal(c, s, i);
    CountUpdate(s.workers, i, WorkerStep(c, s, i).workers[i], Leaving);
  }

  lemma SameLeaving(ws: seq<Worker>, ws': seq<Worker>)
    requires WorkersWoken(ws, ws') || ws' == ws + [Worker(WEnter, Task(NULL, NULL), 0)]
    ensures Count(ws', Leaving) == Count(ws, Leaving)
  {
    if |ws'| == |ws| {
      CountSame(ws, ws', Leaving);
    } else {
      CountAppend(ws, ws'[|ws|], Leaving);
    }
  }

  lemma ManagerSends(c: Config, s: State, pick: nat)
    requires ManagerEnabled(s, pick) && s.mgr.pc != M209
    ensures ManagerStep(c, s, pick).sh.waitExit == s.sh.waitExit
  {
  }

  lemma SentStep(c: Config, s: State, a: Action)
    requires LockInv(s) && CounterInv(s) && c.capacity >= 1 && Enabled(s, a) && !Orders(s, a)
    ensures Sent(Step(c, s, a)) <= Sent(s)
  {
    hide LockInv, CounterInv, Count;
    match a
    case Work(i) => SentByWorker(c, s, i);
    case Produce(j, task, pick) =>
      assert ProducerFrame(s, ProducerStep(c, s, j, task, pick), j) by {
        LockFacts(s);
        ProducerLocal(c, s, j, task, pick);
      }
      SameLeaving(s.workers, ProducerStep(c, s, j, task, pick).workers);
    case Manage(pick) =>
      assert ManagerMoved(s, ManagerStep(c, s, pick)) by {
        LockFacts(s);
        ManagerLocal(c, s, pick);
      }
      ManagerSends(c, s, pick);
      SameLeaving(s.workers, ManagerStep(c, s, pick).workers);
    case Destroy => SameLeaving(s.workers, DestroyStep(s).workers);
    case SpuriousW(i) => SameLeaving(s.workers, GoW(s, i, WWoken).workers);
    case SpuriousP(j) =>
  }

  lemma LockFacts(s: State)
    requires LockInv(s) && CounterInv(s)
    ensures (HoldsM(s.mgr.pc) <==> s.lock == OwnM) && (CountsM(s.mgr.pc) <==> s.counter == OwnM)
    ensures forall j :: 0 <= j < |s.producers| ==> (HoldsP(s.producers[j].pc) <==> s.lock == OwnP(j))
  {
  }

  lemma {:induction false} SentOverRun(c: Config, run: seq<State>, acts: seq<Action>, k: nat, m: nat)
    requires IsRun(c, run, acts) && k <= m <= |acts|
    requires forall n :: k <= n < m ==> !Orders(run[n], acts[n])
    ensures Sent(run[m]) <= Sent(run[k])
    decreases m
  {
    hide IsRun, Next, RingInv, TaskInv, WakeInv, RoomInv, QuitInv, SizeInv, LockInv, CounterInv, Sent;
    RunShape(c, run, acts);
    if k < m {
      SentOverRun(c, run, acts, k, m - 1);
      RunInv(c, run, acts, m - 1);
      StepOf(c, run, acts, m - 1);
      SentByStep(c, run[m - 1], acts[m - 1], run[m]);
    }
  }

  lemma SentByStep(c: Config, s: State, a: Action, s': State)
    requires LockInv(s) && CounterInv(s) && Next(c, s, a, s') && !Orders(s, a)
    ensures Sent(s') <= Sent(s)
  {
    SentStep(c, s, a);
  }

  /** With the lock free, those past line 102 have left. */
  lemma LeavingIsExited(s: State)
    requires LockInv(s) && (s.lock == Nobody || s.lock == OwnM)
    ensures Count(s.workers, Leaving) == Count(s.workers, Exited)
  {
    forall k | 0 <= k < |s.workers|
      ensures Leaving(s.workers[k]) == Exited(s.workers[k])
    {
      assert !HoldsW(s.workers[k].pc);
    }
    CountAgree(s.workers, Leaving, Exited);
  }

  lemma ExitedAreLeaving(ws: seq<Worker>)
    ensures Count(ws, Exited) <= Count(ws, Leaving)
  {
    CountImplies(ws, Exited, Leaving);
  }

  /** Until the manager gives its next order, no more workers leave than wait_exit_thr_num said when the
      lock was last free, which is at most `vary`; and each that has left is off wait_exit_thr_num. */
  lemma ExitsPerOrder(c: Config, run: seq<State>, acts: seq<Action>, k: nat, m: nat)
    requires IsRun(c, run, acts) && k <= m <= |acts| && (run[k].lock == Nobody || run[k].lock == OwnM)
    requires forall n :: k <= n < m ==> !Orders(run[n], acts[n])
    ensures Count(run[m].workers, Exited) - Count(run[k].workers, Exited)
         <= run[k].sh.waitExit - run[m].sh.waitExit <= run[k].sh.waitExit <= c.vary
  {
    hide IsRun, Next, RingInv, TaskInv, WakeInv, RoomInv, QuitInv;
    RunShape(c, run, acts);
    SentOverRun(c, run, acts, k, m);
    RunInv(c, run, acts, k);
    RunInv(c, run, acts, m);
    LeavingIsExited(run[k]);
    ExitedAreLeaving(run[m].workers);
    hide SizeInv, LockInv;
  }
}
