/** How many workers there are, and what may still happen once shutdown is raised. */
module PoolSize {
  import opened Counting
  import opened PoolMachine
  import opened PoolLocks
  import opened PoolRing

  /** Past line 108: no longer counted in live_thr_num, and leaving. */
  predicate Gone(w: Worker) { w.pc in {W109, WExit} }

  /** Between the increment of busy_thr_num and its decrement. */
  predicate Busy(w: Worker) { w.pc in {W145, W148, W152, W153} }

  predicate Used(slot: bool) { slot }

  predicate UncountedBirth(m: Manager) { m.pc in {M196, M197} }

  /** What a worker has tested under the lock and still relies on. */
  predicate WorkerTested(c: Config, sh: Shared, h: Held) {
    && (h.HeldW? && h.w.pc == W102 ==> sh.waitExit > 0)
    && (h.HeldW? && h.w.pc == W108 ==> sh.live > c.minThr)
  }

  /** What the manager has tested, on the pool under the lock or on its own snapshot. */
  predicate ManagerTested(c: Config, sh: Shared, m: Manager) {
    && (m.pc in {M193, M195, M196, M197} ==> sh.live < c.maxThr)
    && (m.pc == M195 ==> m.i < |sh.threads| && !sh.threads[m.i])
    && (m.pc in {M189, M197, M200} ==> m.added <= c.vary)
    && (m.pc in {M193, M195, M196} ==> m.added < c.vary)
    && (m.pc in {M186, M189, M193, M195, M196, M197, M200} ==> m.size >= c.minWait && m.live < c.maxThr)
    && (m.pc in {M208, M209, M210, M212} ==> m.busy * 2 < m.live && m.live > c.minThr)
  }

  ghost predicate SizeInv(c: Config, s: State) {
    && |s.workers| - Count(s.workers, Gone) - s.sh.live
       == c.minThr - c.live0 + (if UncountedBirth(s.mgr) then 1 else 0)
    && s.sh.live <= c.maxThr
    && (s.sh.live >= c.live0 || s.sh.live >= c.minThr)
    && 0 <= s.sh.waitExit <= c.vary
    && s.sh.busy == Count(s.workers, Busy)
    && |s.sh.threads| == c.maxThr
    && Count(s.sh.threads, Used) == |s.workers|
    && WorkerTested(c, s.sh, Holder(s)) && ManagerTested(c, s.sh, s.mgr)
  }

  /** The counters follow the worker that moves. */
  ghost predicate SizeMoved(c: Config, s: State, s': State, i: nat)
    requires i < |s.workers| == |s'.workers|
  {
    var w, w' := s.workers[i], s'.workers[i];
    && s'.sh.live - s.sh.live == (if Gone(w) then 1 else 0) - (if Gone(w') then 1 else 0)
    && s'.sh.busy - s.sh.busy == (if Busy(w') then 1 else 0) - (if Busy(w) then 1 else 0)
    && (s'.sh.live == s.sh.live || (w.pc == W108 && s'.sh.live == s.sh.live - 1))
    && (s'.sh.waitExit == s.sh.waitExit || (w.pc == W102 && s'.sh.waitExit == s.sh.waitExit - 1))
    && (w'.pc == W102 ==> s'.sh.waitExit > 0)
    && (w'.pc == W108 ==> s'.sh.live > c.minThr)
  }

  lemma SizeWait(c: Config, s: State, i: nat)
    requires WorkerEnabled(s, i) && !Taking(s.workers[i].pc) && !Running(s.workers[i].pc)
    ensures SizeMoved(c, s, WaitStep(c, s, i), i)
  {
  }

  lemma SizeLocal(c: Config, s: State, i: nat)
    requires c.capacity >= 1 && WorkerEnabled(s, i)
    ensures |WorkerStep(c, s, i).workers| == |s.workers| && SizeMoved(c, s, WorkerStep(c, s, i), i)
  {
    var pc := s.workers[i].pc;
    if !Taking(pc) && !Running(pc) {
      SizeWait(c, s, i);
    }
  }

  lemma SizeWorkerFrame(c: Config, s: State, s': State, i: nat)
    requires SizeInv(c, s) && LockInv(s) && WorkerMoved(s, s', i) && SizeMoved(c, s, s', i)
    ensures SizeInv(c, s')
  {
    CountUpdate(s.workers, i, s'.workers[i], Gone);
    CountUpdate(s.workers, i, s'.workers[i], Busy);
  }

  lemma SizeWorker(c: Config, s: State, i: nat)
    requires SizeInv(c, s) && LockInv(s) && CounterInv(s) && c.capacity >= 1 && WorkerEnabled(s, i)
    ensures SizeInv(c, WorkerStep(c, s, i))
  {
    SizeLocal(c, s, i);
    WorkerLocal(c, s, i);
    SizeWorkerFrame(c, s, WorkerStep(c, s, i), i);
  }

  /** Wake-ups and births change neither who is gone nor who is busy. */
  lemma SizeWoken(ws: seq<Worker>, ws': seq<Worker>)
    requires WorkersWoken(ws, ws') || ws' == ws + [Worker(WEnter, Task(NULL, NULL), 0)]
    ensures Count(ws', Gone) == Count(ws, Gone) && Count(ws', Busy) == Count(ws, Busy)
  {
    if |ws'| == |ws| {
      CountSame(ws, ws', Gone);
      CountSame(ws, ws', Busy);
    } else {
      CountAppend(ws, ws'[|ws|], Gone);
      CountAppend(ws, ws'[|ws|], Busy);
    }
  }

  lemma SizeProducer(c: Config, s: State, s': State, j: nat)
    requires SizeInv(c, s) && LockInv(s) && ProducerFrame(s, s', j)
    ensures SizeInv(c, s')
  {
    SizeWoken(s.workers, s'.workers);
  }

  /** The manager's own bookkeeping, but for the counts over workers and slots. */
  ghost predicate BooksKept(c: Config, s: State, s': State) {
    && |s'.workers| - s'.sh.live - (if UncountedBirth(s'.mgr) then 1 else 0)
       == |s.workers| - s.sh.live - (if UncountedBirth(s.mgr) then 1 else 0)
    && s.sh.live <= s'.sh.live && (s'.sh.live == s.sh.live || s'.sh.live <= c.maxThr)
    && (s'.sh.waitExit == s.sh.waitExit || (HoldsM(s.mgr.pc) && s'.sh.waitExit == c.vary))
    && ManagerTested(c, s'.sh, s'.mgr)
    && (if s.mgr.pc == M195 && s.mgr.i < |s.sh.threads|
        then |s'.workers| == |s.workers| + 1 && s'.sh.threads == s.sh.threads[s.mgr.i := true]
        else |s'.workers| == |s.workers| && s'.sh.threads == s.sh.threads)
    && (s'.sh.live != s.sh.live ==> HoldsM(s.mgr.pc))
  }

  lemma BooksGrowing(c: Config, s: State, pick: nat)
    requires ManagerTested(c, s.sh, s.mgr) && Growing(s.mgr.pc)
    ensures BooksKept(c, s, ManagerStep(c, s, pick))
  {
  }

  lemma BooksWatching(c: Config, s: State, pick: nat)
    requires ManagerTested(c, s.sh, s.mgr) && !Growing(s.mgr.pc)
    ensures BooksKept(c, s, ManagerStep(c, s, pick))
  {
  }

  lemma ManagerBooks(c: Config, s: State, pick: nat)
    requires ManagerTested(c, s.sh, s.mgr)
    ensures BooksKept(c, s, ManagerStep(c, s, pick))
  {
    hide *;
    if Growing(s.mgr.pc) {
      BooksGrowing(c, s, pick);
    } else {
      BooksWatching(c, s, pick);
    }
  }

  /** The manager changes nothing a worker has tested. */
  lemma TestsStand(c: Config, s: State, s': State)
    requires LockInv(s) && ManagerFrame(s, s') && BooksKept(c, s, s') && WorkerTested(c, s.sh, Holder(s))
    ensures WorkerTested(c, s'.sh, Holder(s'))
  {
    hide ManagerTested;
  }

  lemma SizeManager(c: Config, s: State, s': State)
    requires SizeInv(c, s) && LockInv(s) && ManagerFrame(s, s') && BooksKept(c, s, s')
    ensures SizeInv(c, s')
  {
    SizeWoken(s.workers, s'.workers);
    TestsStand(c, s, s');
    if s.mgr.pc == M195 {
      CountUpdate(s.sh.threads, s.mgr.i, true, Used);
    }
    hide LockInv, WorkerTested, Holder, WorkersWoken;
  }

  lemma SizeSame(c: Config, s: State, s': State)
    requires SizeInv(c, s) && LockInv(s) && WorkersWoken(s.workers, s'.workers)
    requires s'.lock == s.lock && s'.mgr == s.mgr && |s'.producers| == |s.producers|
    requires s'.sh.(shutdown := false) == s.sh.(shutdown := false)
    ensures SizeInv(c, s')
  {
    SizeWoken(s.workers, s'.workers);
  }

  /** Pool-size accounting survives every step. */
  lemma SizeStep(c: Config, s: State, a: Action)
    requires SizeInv(c, s) && LockInv(s) && CounterInv(s) && c.capacity >= 1 && Enabled(s, a)
    ensures SizeInv(c, Step(c, s, a))
  {
    hide WorkerStep, ProducerStep, ManagerStep;
    match a
    case Work(i) => SizeWorker(c, s, i);
    case Produce(j, task, pick) =>
      ProducerLocal(c, s, j, task, pick);
      SizeProducer(c, s, ProducerStep(c, s, j, task, pick), j);
    case Manage(pick) =>
      ManagerLocal(c, s, pick);
      ManagerBooks(c, s, pick);
      SizeManager(c, s, ManagerStep(c, s, pick));
    case Destroy => SizeSame(c, s, DestroyStep(s));
    case SpuriousW(i) => SizeSame(c, s, GoW(s, i, WWoken));
    case SpuriousP(j) => SizeSame(c, s, GoP(s, j, PWoken));
  }

  // After shutdown.

  /** Past its last look at `shutdown` and not yet done with the ring. */
  predicate Committed(h: Held) {
    || (h.HeldW? && h.w.pc in {W124, W125, W130, W131})
    || (h.HeldP? && h.p.pc in {P309, P316, P318, P320, P322})
  }

  /** Queue operations completed so far: line 131 ends a dequeue, line 322 an enqueue. */
  function Completed(s: State): nat { |s.enq| + |s.deq| }

  /** The operations completed, and the one a committed holder may still complete. */
  function Allowance(s: State): nat { Completed(s) + if Committed(Holder(s)) then 1 else 0 }

  lemma LateWorker(c: Config, s: State, i: nat)
    requires LockInv(s) && c.capacity >= 1 && WorkerEnabled(s, i) && s.sh.shutdown
    ensures Allowance(WorkerStep(c, s, i)) <= Allowance(s)
  {
  }

  lemma LateProducer(c: Config, s: State, j: nat, task: Task, pick: nat)
    requires LockInv(s) && c.capacity >= 1 && ProducerEnabled(s, j, pick) && s.sh.shutdown
    ensures Allowance(ProducerStep(c, s, j, task, pick)) <= Allowance(s)
  {
  }

  /** Once shutdown is raised nobody commits to a new operation, and it stays raised. */
  lemma LateStep(c: Config, s: State, a: Action, s': State)
    requires LockInv(s) && CounterInv(s) && Next(c, s, a, s') && s.sh.shutdown
    ensures Allowance(s') <= Allowance(s) && s'.sh.shutdown
  {
    match a
    case Work(i) =>
      LateWorker(c, s, i);
      WorkerLocal(c, s, i);
    case Produce(j, task, pick) =>
      LateProducer(c, s, j, task, pick);
      ProducerLocal(c, s, j, task, pick);
    case Manage(pick) => ManagerLocal(c, s, pick);
    case Destroy =>
    case SpuriousW(i) =>
    case SpuriousP(j) =>
  }
}
