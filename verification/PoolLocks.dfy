/** Mutual exclusion on `lock` and `thread_counter`, and what it protects. */
module PoolLocks {
  import opened PoolMachine

  predicate CountsW(pc: WPc) { pc in {W143, W145, W153, W154} }

  predicate CountsM(pc: MPc) { pc in {M180, M181} }

  /** A thread is inside a critical section exactly when it owns the mutex. */
  ghost predicate LockInv(s: State) {
    && (forall i :: 0 <= i < |s.workers| ==> (HoldsW(s.workers[i].pc) <==> s.lock == OwnW(i)))
    && (forall j :: 0 <= j < |s.producers| ==> (HoldsP(s.producers[j].pc) <==> s.lock == OwnP(j)))
    && (HoldsM(s.mgr.pc) <==> s.lock == OwnM)
    && (s.lock.OwnW? ==> s.lock.w < |s.workers|)
    && (s.lock.OwnP? ==> s.lock.p < |s.producers|)
  }

  ghost predicate CounterInv(s: State) {
    && (forall i :: 0 <= i < |s.workers| ==> (CountsW(s.workers[i].pc) <==> s.counter == OwnW(i)))
    && (CountsM(s.mgr.pc) <==> s.counter == OwnM)
    && (s.counter.OwnW? ==> s.counter.w < |s.workers|)
    && !s.counter.OwnP?
  }

  /** A thread leaves a mutex alone, takes it when free, or gives it back. */
  ghost predicate OwnerMove(before: Owner, after: Owner, me: Owner) {
    after == before || (before == Nobody && after == me) || (before == me && after == Nobody)
  }

  /** Broadcasts and signals move sleepers and nothing else. */
  ghost predicate WorkersWoken(ws: seq<Worker>, ws': seq<Worker>) {
    && |ws'| == |ws|
    && forall k :: 0 <= k < |ws| ==>
         ws'[k] == ws[k] || (ws[k].pc == WSleep && ws'[k] == ws[k].(pc := WWoken))
  }

  ghost predicate ProducersWoken(ps: seq<Producer>, ps': seq<Producer>) {
    && |ps'| == |ps|
    && forall k :: 0 <= k < |ps| ==>
         ps'[k] == ps[k] || (ps[k].pc == PSleep && ps'[k] == ps[k].(pc := PWoken))
  }

  // What the step of one thread can touch, seen from the other threads.

  ghost predicate WorkerFrame(s: State, s': State, i: nat) {
    && |s'.workers| == |s.workers| && i < |s.workers|
    && s'.workers == s.workers[i := s'.workers[i]]
    && ProducersWoken(s.producers, s'.producers)
    && s'.mgr == s.mgr && s'.dst == s.dst && s'.enq == s.enq
    && s'.sh.queue == s.sh.queue && s'.sh.rear == s.sh.rear
    && s'.sh.shutdown == s.sh.shutdown && s'.sh.threads == s.sh.threads
    && OwnerMove(s.lock, s'.lock, OwnW(i)) && OwnerMove(s.counter, s'.counter, OwnW(i))
  }

  ghost predicate ProducerFrame(s: State, s': State, j: nat) {
    && |s'.producers| == |s.producers| && j < |s.producers|
    && s'.producers == s.producers[j := s'.producers[j]]
    && WorkersWoken(s.workers, s'.workers)
    && s'.mgr == s.mgr && s'.dst == s.dst && s'.counter == s.counter
    && s'.deq == s.deq && s'.taker == s.taker && s'.ran == s.ran
    && s'.sh.front == s.sh.front && s'.sh.live == s.sh.live && s'.sh.busy == s.sh.busy
    && s'.sh.waitExit == s.sh.waitExit
    && s'.sh.shutdown == s.sh.shutdown && s'.sh.threads == s.sh.threads
    && OwnerMove(s.lock, s'.lock, OwnP(j))
  }

  ghost predicate ManagerFrame(s: State, s': State) {
    && (WorkersWoken(s.workers, s'.workers)
        || s'.workers == s.workers + [Worker(WEnter, Task(NULL, NULL), 0)])
    && s'.producers == s.producers && s'.dst == s.dst
    && s'.enq == s.enq && s'.deq == s.deq && s'.taker == s.taker && s'.ran == s.ran
    && s'.sh.queue == s.sh.queue && s'.sh.front == s.sh.front && s'.sh.rear == s.sh.rear
    && s'.sh.size == s.sh.size && s'.sh.busy == s.sh.busy && s'.sh.shutdown == s.sh.shutdown
    && OwnerMove(s.lock, s'.lock, OwnM) && OwnerMove(s.counter, s'.counter, OwnM)
  }

  /** The part of WorkerLocal the three regions of threadpool_thread share. */
  ghost predicate WorkerMoved(s: State, s': State, i: nat) {
    && WorkerFrame(s, s', i)
    && (HoldsW(s'.workers[i].pc) <==> s'.lock == OwnW(i))
    && (CountsW(s'.workers[i].pc) <==> s'.counter == OwnW(i))
  }

  /** Lines 97 to 112: asleep, woken, or asking whether to leave. */
  predicate Waiting(pc: WPc) { pc in {W97, WSleep, WWoken, W100, W102, W105, W108, W109, WExit} }

  lemma SleepLocal(c: Config, s: State, i: nat)
    requires WorkerEnabled(s, i) && Waiting(s.workers[i].pc)
    requires HoldsW(s.workers[i].pc) <==> s.lock == OwnW(i)
    requires CountsW(s.workers[i].pc) <==> s.counter == OwnW(i)
    ensures WorkerMoved(s, WaitStep(c, s, i), i)
  {
  }

  lemma TestLocal(c: Config, s: State, i: nat)
    requires WorkerEnabled(s, i) && !Waiting(s.workers[i].pc)
    requires !Taking(s.workers[i].pc) && !Running(s.workers[i].pc)
    requires HoldsW(s.workers[i].pc) <==> s.lock == OwnW(i)
    requires CountsW(s.workers[i].pc) <==> s.counter == OwnW(i)
    ensures WorkerMoved(s, WaitStep(c, s, i), i)
  {
  }

  lemma WaitLocal(c: Config, s: State, i: nat)
    requires WorkerEnabled(s, i) && !Taking(s.workers[i].pc) && !Running(s.workers[i].pc)
    requires HoldsW(s.workers[i].pc) <==> s.lock == OwnW(i)
    requires CountsW(s.workers[i].pc) <==> s.counter == OwnW(i)
    ensures WorkerMoved(s, WaitStep(c, s, i), i)
  {
    hide WaitStep, WorkerMoved;
    if Waiting(s.workers[i].pc) {
      SleepLocal(c, s, i);
    } else {
      TestLocal(c, s, i);
    }
  }

  lemma TakeLocal(c: Config, s: State, i: nat)
    requires c.capacity >= 1 && i < |s.workers| && Taking(s.workers[i].pc)
    requires HoldsW(s.workers[i].pc) <==> s.lock == OwnW(i)
    requires CountsW(s.workers[i].pc) <==> s.counter == OwnW(i)
    ensures WorkerMoved(s, TakeStep(c, s, i), i)
  {
  }

  lemma RunLocal(s: State, i: nat)
    requires WorkerEnabled(s, i) && Running(s.workers[i].pc)
    requires HoldsW(s.workers[i].pc) <==> s.lock == OwnW(i)
    requires CountsW(s.workers[i].pc) <==> s.counter == OwnW(i)
    ensures WorkerMoved(s, RunStep(s, i), i)
  {
  }

  lemma WorkerLocal(c: Config, s: State, i: nat)
    requires c.capacity >= 1 && WorkerEnabled(s, i)
    requires HoldsW(s.workers[i].pc) <==> s.lock == OwnW(i)
    requires CountsW(s.workers[i].pc) <==> s.counter == OwnW(i)
    ensures WorkerMoved(s, WorkerStep(c, s, i), i)
  {
    var pc := s.workers[i].pc;
    if Taking(pc) {
      TakeLocal(c, s, i);
    } else if Running(pc) {
      RunLocal(s, i);
    } else {
      WaitLocal(c, s, i);
    }
  }

  lemma ProducerLocal(c: Config, s: State, j: nat, task: Task, pick: nat)
    requires c.capacity >= 1 && ProducerEnabled(s, j, pick)
    requires HoldsP(s.producers[j].pc) <==> s.lock == OwnP(j)
    ensures var s' := ProducerStep(c, s, j, task, pick);
      && ProducerFrame(s, s', j)
      && (HoldsP(s'.producers[j].pc) <==> s'.lock == OwnP(j))
  {
  }

  /** The manager's loop of lines 186 to 200. */
  predicate Growing(pc: MPc) { pc in {M186, M189, M193, M195, M196, M197, M200} }

  ghost predicate ManagerMoved(s: State, s': State) {
    && ManagerFrame(s, s')
    && (HoldsM(s'.mgr.pc) <==> s'.lock == OwnM)
    && (CountsM(s'.mgr.pc) <==> s'.counter == OwnM)
  }

  lemma GrowLocal(c: Config, s: State, pick: nat)
    requires ManagerEnabled(s, pick) && Growing(s.mgr.pc)
    requires (HoldsM(s.mgr.pc) <==> s.lock == OwnM) && (CountsM(s.mgr.pc) <==> s.counter == OwnM)
    ensures ManagerMoved(s, ManagerStep(c, s, pick))
  {
  }

  lemma WatchLocal(c: Config, s: State, pick: nat)
    requires ManagerEnabled(s, pick) && !Growing(s.mgr.pc)
    requires (HoldsM(s.mgr.pc) <==> s.lock == OwnM) && (CountsM(s.mgr.pc) <==> s.counter == OwnM)
    ensures ManagerMoved(s, ManagerStep(c, s, pick))
  {
  }

  lemma ManagerLocal(c: Config, s: State, pick: nat)
    requires ManagerEnabled(s, pick)
    requires (HoldsM(s.mgr.pc) <==> s.lock == OwnM) && (CountsM(s.mgr.pc) <==> s.counter == OwnM)
    ensures ManagerMoved(s, ManagerStep(c, s, pick))
  {
    hide ManagerStep, ManagerMoved;
    if Growing(s.mgr.pc) {
      GrowLocal(c, s, pick);
    } else {
      WatchLocal(c, s, pick);
    }
  }

  // The invariants, from the frames.

  lemma LockWorker(s: State, s': State, i: nat)
    requires LockInv(s) && CounterInv(s) && WorkerMoved(s, s', i)
    ensures LockInv(s') && CounterInv(s')
  {
  }

  lemma LockProducer(s: State, s': State, j: nat)
    requires LockInv(s) && CounterInv(s) && ProducerFrame(s, s', j)
    requires HoldsP(s'.producers[j].pc) <==> s'.lock == OwnP(j)
    ensures LockInv(s') && CounterInv(s')
  {
  }

  lemma LockManager(s: State, s': State)
    requires LockInv(s) && CounterInv(s) && ManagerMoved(s, s')
    ensures LockInv(s') && CounterInv(s')
  {
  }

  lemma LockSame(s: State, s': State)
    requires LockInv(s) && CounterInv(s) && WorkersWoken(s.workers, s'.workers)
    requires ProducersWoken(s.producers, s'.producers)
    requires s'.mgr == s.mgr && s'.lock == s.lock && s'.counter == s.counter
    ensures LockInv(s') && CounterInv(s')
  {
  }

  /** Neither mutex is ever held by two threads, whatever the schedule. */
  lemma LockStep(c: Config, s: State, a: Action)
    requires c.capacity >= 1 && LockInv(s) && CounterInv(s) && Enabled(s, a)
    ensures LockInv(Step(c, s, a)) && CounterInv(Step(c, s, a))
  {
    var s' := Step(c, s, a);
    match a
    case Work(i) =>
      WorkerLocal(c, s, i);
      hide *;
      LockWorker(s, s', i);
    case Produce(j, task, pick) =>
      ProducerLocal(c, s, j, task, pick);
      hide *;
      LockProducer(s, s', j);
    case Manage(pick) =>
      ManagerLocal(c, s, pick);
      hide *;
      LockManager(s, s');
    case Destroy => LockSame(s, DestroyStep(s));
    case SpuriousW(i) => LockSame(s, GoW(s, i, WWoken));
    case SpuriousP(j) => LockSame(s, GoP(s, j, PWoken));
  }
}
