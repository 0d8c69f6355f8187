/** The ring as a FIFO queue, statement by statement, and the life of each task. */
module PoolRing {
  import opened PoolMachine
  import opened PoolLocks
  import opened Modular

  // A position in the ring is a position in a log modulo the capacity.

  /** The thread inside the critical section of `lock`, if it is one that works on the ring. */
  datatype Held = Free | HeldW(w: Worker) | HeldP(p: Producer)

  function Holder(s: State): Held {
    match s.lock
    case OwnW(i) => if i < |s.workers| then HeldW(s.workers[i]) else Free
    case OwnP(j) => if j < |s.producers| then HeldP(s.producers[j]) else Free
    case _ => Free
  }

  predicate FrontMoved(h: Held) { h.HeldW? && h.w.pc == W131 }

  predicate RearMoved(h: Held) { h.HeldP? && h.p.pc == P322 }

  /** What the holder has checked or written so far. */
  predicate HolderFacts(c: Config, sh: Shared, enq: seq<Task>, deq: seq<Task>, h: Held)
    requires c.capacity >= 1 && |sh.queue| == c.capacity
    requires sh.size == |enq| - |deq| >= 0
  {
    match h
    case Free => true
    case HeldW(w) =>
      && (w.pc in {W95s, W97} ==> sh.size == 0)
      && (w.pc == W116 ==> sh.size > 0 || sh.shutdown)
      && (w.pc in {W124, W125, W130, W131} ==> sh.size > 0)
      && (w.pc == W125 ==> w.task.fn == enq[|deq|].fn)
      && (w.pc in {W130, W131} ==> w.task == enq[|deq|])
    case HeldP(p) =>
      && (p.pc in {P295s, P297} ==> sh.size == c.capacity)
      && (p.pc == P300 ==> sh.size < c.capacity || sh.shutdown)
      && (p.pc in {P309, P316, P318, P320, P322} ==> sh.size < c.capacity)
      && (p.pc == P318 ==> sh.queue[|enq| % c.capacity].fn == p.task.fn)
      && (p.pc in {P320, P322} ==> sh.queue[|enq| % c.capacity] == p.task)
  }

  /** The ring holds exactly the tasks enqueued and not yet dequeued, oldest at the front. */
  ghost predicate RingCore(c: Config, sh: Shared, enq: seq<Task>, deq: seq<Task>, h: Held) {
    && c.capacity >= 1 && |sh.queue| == c.capacity
    && |deq| <= |enq| && deq == enq[..|deq|]
    && sh.size == |enq| - |deq| <= c.capacity
    && sh.front == (|deq| + if FrontMoved(h) then 1 else 0) % c.capacity
    && sh.rear == (|enq| + if RearMoved(h) then 1 else 0) % c.capacity
    && (forall k :: |deq| <= k < |enq| ==> sh.queue[k % c.capacity] == enq[k])
    && HolderFacts(c, sh, enq, deq, h)
  }

  ghost predicate RingInv(c: Config, s: State) {
    RingCore(c, s.sh, s.enq, s.deq, Holder(s))
  }

  /** A store to the cell at the rear spoils no cell that is in use. */
  lemma RearCellFree(c: Config, sh: Shared, enq: seq<Task>, deq: seq<Task>, h: Held, t: Task)
    requires RingCore(c, sh, enq, deq, h) && sh.size < c.capacity && !RearMoved(h)
    ensures forall k :: |deq| <= k < |enq| ==> sh.queue[sh.rear := t][k % c.capacity] == enq[k]
  {
    forall k | |deq| <= k < |enq|
      ensures sh.queue[sh.rear := t][k % c.capacity] == enq[k]
    {
      ModDistinct(k, |enq|, c.capacity);
    }
  }

  // Steps of the holder.

  lemma RingTaken(c: Config, s: State, i: nat)
    requires i < |s.workers| && s.workers[i].pc == W131 && s.lock == OwnW(i) && RingInv(c, s)
    ensures RingInv(c, TakeStep(c, s, i))
  {
    assert s.enq[..|s.deq|] + [s.enq[|s.deq|]] == s.enq[..|s.deq| + 1];
  }

  lemma RingTake(c: Config, s: State, i: nat)
    requires i < |s.workers| && Taking(s.workers[i].pc) && s.lock == OwnW(i) && RingInv(c, s)
    ensures RingInv(c, TakeStep(c, s, i))
  {
    if s.workers[i].pc == W131 {
      RingTaken(c, s, i);
    } else {
      ModNext(|s.deq|, c.capacity);
    }
  }

  lemma RingWait(c: Config, s: State, i: nat)
    requires RingInv(c, s) && WorkerEnabled(s, i)
    requires !Taking(s.workers[i].pc) && !Running(s.workers[i].pc)
    requires HoldsW(s.workers[i].pc) <==> s.lock == OwnW(i)
    ensures RingInv(c, WaitStep(c, s, i))
  {
  }

  predicate Filling(pc: PPc) { pc in {P309, P316, P318, P320, P322} }

  /** What each statement of the add section stores. */
  function FillStore(c: Config, sh: Shared, t: Task, pc: PPc): Shared
    requires c.capacity >= 1
  {
    match pc
    case P309 => PutArg(sh, NULL)
    case P316 => PutFunction(sh, t.fn)
    case P318 => PutArg(sh, t.arg)
    case P320 => RearStep(c, sh)
    case P322 => sh.(size := sh.size + 1)
    case _ => sh
  }

  function FillNext(pc: PPc): PPc {
    match pc
    case P309 => P316
    case P316 => P318
    case P318 => P320
    case P320 => P322
    case _ => P325
  }

  lemma FillMove(c: Config, s: State, j: nat, task: Task, pick: nat)
    requires c.capacity >= 1 && j < |s.producers| && Filling(s.producers[j].pc)
    ensures var p := s.producers[j];
      ProducerStep(c, s, j, task, pick) ==
        s.(producers := s.producers[j := p.(pc := FillNext(p.pc))],
           sh := FillStore(c, s.sh, p.task, p.pc),
           enq := if p.pc == P322 then s.enq + [p.task] else s.enq)
  {
    hide PutArg, PutFunction, RearStep;
  }

  /** The three stores to the cell at the rear. */
  lemma FillWrites(c: Config, sh: Shared, enq: seq<Task>, deq: seq<Task>, p: Producer)
    requires RingCore(c, sh, enq, deq, HeldP(p)) && p.pc in {P309, P316, P318}
    ensures RingCore(c, FillStore(c, sh, p.task, p.pc), enq, deq, HeldP(p.(pc := FillNext(p.pc))))
  {
    var cell := sh.queue[sh.rear];
    match p.pc
    case P309 => RearCellFree(c, sh, enq, deq, HeldP(p), cell.(arg := NULL));
    case P316 => RearCellFree(c, sh, enq, deq, HeldP(p), cell.(fn := p.task.fn));
    case _ => RearCellFree(c, sh, enq, deq, HeldP(p), cell.(arg := p.task.arg));
  }

  /** The rear moves on, and the size follows. */
  lemma FillCounts(c: Config, sh: Shared, enq: seq<Task>, deq: seq<Task>, p: Producer)
    requires RingCore(c, sh, enq, deq, HeldP(p)) && p.pc in {P320, P322}
    ensures RingCore(c, FillStore(c, sh, p.task, p.pc), if p.pc == P322 then enq + [p.task] else enq, deq,
                     HeldP(p.(pc := FillNext(p.pc))))
  {
    ModNext(|enq|, c.capacity);
  }

  lemma RingPut(c: Config, s: State, j: nat, task: Task, pick: nat)
    requires RingInv(c, s) && ProducerEnabled(s, j, pick)
    requires Filling(s.producers[j].pc) && s.lock == OwnP(j)
    ensures RingInv(c, ProducerStep(c, s, j, task, pick))
  {
    assert c.capacity >= 1;
    FillMove(c, s, j, task, pick);
    hide RingCore, ProducerStep, FillStore, FillNext;
    var p := s.producers[j];
    if p.pc in {P309, P316, P318} {
      FillWrites(c, s.sh, s.enq, s.deq, p);
    } else {
      FillCounts(c, s.sh, s.enq, s.deq, p);
    }
  }

  /** Lines 292 to 297. */
  predicate Entering(pc: PPc) { pc in {PIdle, P292, P295, P295s, P297, PSleep, PWoken} }

  lemma RingEnter(c: Config, s: State, j: nat, task: Task, pick: nat)
    requires RingInv(c, s) && ProducerEnabled(s, j, pick) && Entering(s.producers[j].pc)
    requires HoldsP(s.producers[j].pc) <==> s.lock == OwnP(j)
    ensures RingInv(c, ProducerStep(c, s, j, task, pick))
  {
  }

  lemma RingLeave(c: Config, s: State, j: nat, task: Task, pick: nat)
    requires RingInv(c, s) && ProducerEnabled(s, j, pick)
    requires !Filling(s.producers[j].pc) && !Entering(s.producers[j].pc) && s.lock == OwnP(j)
    ensures RingInv(c, ProducerStep(c, s, j, task, pick))
  {
  }

  lemma RingProducer(c: Config, s: State, j: nat, task: Task, pick: nat)
    requires RingInv(c, s) && ProducerEnabled(s, j, pick) && LockInv(s)
    ensures RingInv(c, ProducerStep(c, s, j, task, pick))
  {
    hide RingCore, ProducerStep;
    if Filling(s.producers[j].pc) {
      RingPut(c, s, j, task, pick);
    } else if Entering(s.producers[j].pc) {
      RingEnter(c, s, j, task, pick);
    } else {
      RingLeave(c, s, j, task, pick);
    }
  }

  // Steps of everybody else.

  lemma RingSame(c: Config, s: State, s': State)
    requires RingInv(c, s)
    requires s'.sh.queue == s.sh.queue && s'.sh.front == s.sh.front && s'.sh.rear == s.sh.rear
    requires s'.sh.size == s.sh.size && s'.enq == s.enq && s'.deq == s.deq
    requires s.sh.shutdown ==> s'.sh.shutdown
    requires Holder(s') == Holder(s) || (Holder(s').Free? && !FrontMoved(Holder(s)) && !RearMoved(Holder(s)))
    ensures RingInv(c, s')
  {
  }

  lemma RingWorker(c: Config, s: State, i: nat)
    requires RingInv(c, s) && LockInv(s) && WorkerEnabled(s, i)
    ensures RingInv(c, WorkerStep(c, s, i))
  {
    var pc := s.workers[i].pc;
    if Taking(pc) {
      RingTake(c, s, i);
    } else if Running(pc) {
      RingSame(c, s, RunStep(s, i));
    } else {
      RingWait(c, s, i);
    }
  }

  lemma RingManager(c: Config, s: State, pick: nat)
    requires RingInv(c, s) && LockInv(s) && CounterInv(s) && ManagerEnabled(s, pick)
    ensures RingInv(c, ManagerStep(c, s, pick))
  {
    ManagerLocal(c, s, pick);
    RingSame(c, s, ManagerStep(c, s, pick));
  }

  /** Every step of every thread keeps the ring in agreement with the two logs. */
  lemma RingStep(c: Config, s: State, a: Action)
    requires RingInv(c, s) && LockInv(s) && CounterInv(s) && Enabled(s, a)
    ensures RingInv(c, Step(c, s, a))
  {
    hide WorkerStep, ProducerStep, ManagerStep;
    match a
    case Work(i) => RingWorker(c, s, i);
    case Produce(j, task, pick) => RingProducer(c, s, j, task, pick);
    case Manage(pick) => RingManager(c, s, pick);
    case Destroy => RingSame(c, s, DestroyStep(s));
    case SpuriousW(i) => RingSame(c, s, GoW(s, i, WWoken));
    case SpuriousP(j) => RingSame(c, s, GoP(s, j, PWoken));
  }

  // The life of a task: in the ring, in one worker's hands, or run.

  predicate InHands(pc: WPc) { pc in {W134, W137, W142, W143, W145, W148} }

  /** Dequeue k is in the hands of worker taker[k], or its task has been run. */
  ghost predicate TaskInv(s: State) {
    && |s.taker| == |s.deq|
    && (forall k :: k in s.ran ==> k < |s.deq|)
    && (forall k :: 0 <= k < |s.deq| && k !in s.ran ==>
          s.taker[k] < |s.workers| && InHands(s.workers[s.taker[k]].pc) && s.workers[s.taker[k]].ticket == k)
    && (forall i :: 0 <= i < |s.workers| && InHands(s.workers[i].pc) ==>
          var k := s.workers[i].ticket;
          k < |s.deq| && k !in s.ran && s.taker[k] == i && s.workers[i].task == s.deq[k])
  }

  lemma TaskSame(s: State, s': State)
    requires TaskInv(s)
    requires s'.deq == s.deq && s'.taker == s.taker && s'.ran == s.ran
    requires |s.workers| <= |s'.workers|
    requires forall i :: 0 <= i < |s'.workers| ==>
      (InHands(s'.workers[i].pc) <==> i < |s.workers| && InHands(s.workers[i].pc))
    requires forall i :: 0 <= i < |s.workers| && InHands(s.workers[i].pc) ==>
      s'.workers[i].ticket == s.workers[i].ticket && s'.workers[i].task == s.workers[i].task
    ensures TaskInv(s')
  {
  }

  lemma TaskTaken(c: Config, s: State, i: nat)
    requires TaskInv(s) && c.capacity >= 1 && i < |s.workers| && s.workers[i].pc == W131
    ensures TaskInv(TakeStep(c, s, i))
  {
  }

  lemma TaskRan(s: State, i: nat)
    requires TaskInv(s) && i < |s.workers| && s.workers[i].pc == W148
    ensures TaskInv(RunStep(s, i))
  {
  }

  ghost predicate HandsKept(s: State, s': State, i: nat)
    requires i < |s.workers|
  {
    && s'.deq == s.deq && s'.taker == s.taker && s'.ran == s.ran
    && |s'.workers| == |s.workers| && s'.workers == s.workers[i := s'.workers[i]]
    && (InHands(s'.workers[i].pc) <==> InHands(s.workers[i].pc))
    && (InHands(s.workers[i].pc) ==>
          s'.workers[i].ticket == s.workers[i].ticket && s'.workers[i].task == s.workers[i].task)
  }

  lemma TaskWait(c: Config, s: State, i: nat)
    requires i < |s.workers| && !Taking(s.workers[i].pc) && !Running(s.workers[i].pc)
    ensures HandsKept(s, WaitStep(c, s, i), i)
  {
  }

  lemma TaskTake(c: Config, s: State, i: nat)
    requires c.capacity >= 1 && i < |s.workers| && Taking(s.workers[i].pc) && s.workers[i].pc != W131
    ensures HandsKept(s, TakeStep(c, s, i), i)
  {
  }

  lemma TaskRun(s: State, i: nat)
    requires i < |s.workers| && Running(s.workers[i].pc) && s.workers[i].pc != W148
    ensures HandsKept(s, RunStep(s, i), i)
  {
  }

  /** Only the dequeue and the run of a task concern what workers have in their hands. */
  lemma TaskLocal(c: Config, s: State, i: nat)
    requires c.capacity >= 1 && i < |s.workers| && s.workers[i].pc !in {W131, W148}
    ensures HandsKept(s, WorkerStep(c, s, i), i)
  {
    var pc := s.workers[i].pc;
    if Taking(pc) {
      TaskTake(c, s, i);
    } else if Running(pc) {
      TaskRun(s, i);
    } else {
      TaskWait(c, s, i);
    }
  }

  lemma TaskWorker(c: Config, s: State, i: nat)
    requires TaskInv(s) && c.capacity >= 1 && i < |s.workers|
    ensures TaskInv(WorkerStep(c, s, i))
  {
    var pc := s.workers[i].pc;
    if pc == W131 {
      TaskTaken(c, s, i);
    } else if pc == W148 {
      TaskRan(s, i);
    } else {
      TaskLocal(c, s, i);
      TaskSame(s, WorkerStep(c, s, i));
    }
  }

  lemma TaskWoken(s: State, s': State)
    requires TaskInv(s)
    requires s'.deq == s.deq && s'.taker == s.taker && s'.ran == s.ran
    requires WorkersWoken(s.workers, s'.workers)
          || s'.workers == s.workers + [Worker(WEnter, Task(NULL, NULL), 0)]
    ensures TaskInv(s')
  {
    TaskSame(s, s');
  }

  /** Every step keeps each dequeued task with exactly one worker until it has been run. */
  lemma TaskStep(c: Config, s: State, a: Action)
    requires TaskInv(s) && LockInv(s) && CounterInv(s) && c.capacity >= 1 && Enabled(s, a)
    ensures TaskInv(Step(c, s, a))
  {
    match a
    case Work(i) => TaskWorker(c, s, i);
    case Produce(j, task, pick) =>
      ProducerLocal(c, s, j, task, pick);
      TaskWoken(s, ProducerStep(c, s, j, task, pick));
    case Manage(pick) =>
      ManagerLocal(c, s, pick);
      TaskWoken(s, ManagerStep(c, s, pick));
    case Destroy => TaskWoken(s, DestroyStep(s));
    case SpuriousW(i) => TaskWoken(s, GoW(s, i, WWoken));
    case SpuriousP(j) =>
  }
}
