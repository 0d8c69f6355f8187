/**
  The critical sections of threadpool/main.c as the code runs them, in place on the pool's
  own fields with `lock` held, and the proof that the step machine's sections, cut into
  statements and interleaved with every other thread, do the same.
*/
module PoolCode {
  import opened Counting
  import opened Modular
  import opened PoolMachine
  import opened PoolLocks
  import opened PoolRing
  import opened PoolWakeups
  import opened PoolSize
  import opened PoolTheorems

  ghost predicate RingOk(c: Config, sh: Shared) {
    && c.capacity >= 1 && |sh.queue| == c.capacity
    && 0 <= sh.size <= c.capacity && 0 <= sh.front < c.capacity
    && sh.rear == Wrap(sh.front + sh.size, c.capacity)
  }

  // The two sections as compositions of their statements.

  /** Lines 309 to 322. */
  function PutSection(c: Config, sh: Shared, t: Task): Shared
    requires c.capacity >= 1
  {
    var filled := RearStep(c, PutArg(PutFunction(PutArg(sh, NULL), t.fn), t.arg));
    filled.(size := filled.size + 1)
  }

  /** Lines 130 and 131. */
  function TakeSection(c: Config, sh: Shared): Shared
    requires c.capacity >= 1
  {
    var moved := FrontStep(c, sh);
    moved.(size := moved.size - 1)
  }

  lemma PutStores(c: Config, sh: Shared, t: Task)
    requires RingOk(c, sh) && sh.size < c.capacity
    ensures RingOk(c, PutSection(c, sh, t))
    ensures PutSection(c, sh, t).queue == sh.queue[sh.rear := t]
    ensures PutSection(c, sh, t).front == sh.front && PutSection(c, sh, t).size == sh.size + 1
  {
    WrapIsMod(sh.rear + 1, c.capacity);
  }

  /** The add section appends its task to the window. */
  lemma PutAppends(c: Config, sh: Shared, t: Task)
    requires RingOk(c, sh) && sh.size < c.capacity
    ensures RingOk(c, PutSection(c, sh, t))
    ensures Window(c, PutSection(c, sh, t)) == Window(c, sh) + [t]
  {
    PutStores(c, sh, t);
    hide PutSection;
    var w, w' := Window(c, sh), Window(c, PutSection(c, sh, t));
    assert forall k :: 0 <= k < sh.size ==> w'[k] == w[k];
    assert w'[sh.size] == t;
  }

  /** The take section removes the oldest task. */
  lemma TakeRemoves(c: Config, sh: Shared)
    requires RingOk(c, sh) && sh.size > 0
    ensures RingOk(c, TakeSection(c, sh))
    ensures Window(c, sh) == [Head(sh)] + Window(c, TakeSection(c, sh))
  {
    WrapIsMod(sh.front + 1, c.capacity);
    var w, w' := Window(c, sh), Window(c, TakeSection(c, sh));
    assert w[0] == Head(sh);
    assert forall k :: 0 <= k < sh.size - 1 ==> w'[k] == w[k + 1];
  }

  /** The pool's own fields. */
  class ThreadPool {
    const minThr: nat
    const maxThr: nat
    const capacity: nat
    const vary: nat
    const taskQueue: array<Task>
    const threads: array<bool>
    var queueFront: int
    var queueRear: int
    var queueSize: int
    var liveThrNum: int
    var busyThrNum: int
    var waitExitThrNum: int
    var shutdown: bool

    ghost function Cfg(): Config { Config(minThr, maxThr, capacity, 0, vary, 0) }

    ghost function View(): Shared
      reads this, taskQueue, threads
    {
      Shared(taskQueue[..], queueFront, queueRear, queueSize, liveThrNum, busyThrNum,
             waitExitThrNum, shutdown, threads[..])
    }

    ghost predicate Valid()
      reads this, taskQueue, threads
    {
      RingOk(Cfg(), View()) && threads.Length == maxThr
    }

    ghost function Contents(): seq<Task>
      reads this, taskQueue, threads
      requires Valid()
    {
      Window(Cfg(), View())
    }

    /** threadpool_create, lines 235 to 276; a started thread is a used slot. */
    constructor (min: nat, max: nat, queueMax: nat, vary: nat)
      requires min <= max && queueMax >= 1
      ensures Valid() && fresh(taskQueue) && fresh(threads)
      ensures minThr == min && maxThr == max && capacity == queueMax && this.vary == vary
      ensures Contents() == [] && !shutdown
      ensures liveThrNum == 0 && busyThrNum == 0 && waitExitThrNum == 0
      ensures forall k :: 0 <= k < max ==> threads[k] == (k < min)
    {
      minThr, maxThr, capacity, this.vary := min, max, queueMax, vary;
      busyThrNum, liveThrNum, waitExitThrNum := 0, 0, 0;
      queueSize, queueFront, queueRear := 0, 0, 0;
      shutdown := false;
      var slots := new bool[max](_ => false);
      threads := slots;
      taskQueue := new Task[queueMax](_ => Task(NULL, NULL));
      new;
      for i := 0 to min
        invariant forall k :: 0 <= k < max ==> threads[k] == (k < i)
        invariant queueSize == 0 && queueFront == 0 && queueRear == 0 && !shutdown
        invariant liveThrNum == 0 && busyThrNum == 0 && waitExitThrNum == 0
      {
        threads[i] := true;
      }
    }

    /** Lines 309 to 322 of threadpool_add, past the wait for room. */
    method Put(fn: int, arg: int)
      requires Valid() && queueSize < capacity
      modifies this`queueRear, this`queueSize, taskQueue
      ensures View() == PutSection(Cfg(), old(View()), Task(fn, arg))
      ensures Valid() && Contents() == old(Contents()) + [Task(fn, arg)]
    {
      PutAppends(Cfg(), View(), Task(fn, arg));
      if taskQueue[queueRear].arg != NULL {
        taskQueue[queueRear] := taskQueue[queueRear].(arg := NULL);
      }
      taskQueue[queueRear] := taskQueue[queueRear].(fn := fn);
      taskQueue[queueRear] := taskQueue[queueRear].(arg := arg);
      queueRear := (queueRear + 1) % capacity;
      queueSize := queueSize + 1;
    }

    /** Lines 124 to 131 of threadpool_thread, past the wait for work. */
    method Take() returns (task: Task)
      requires Valid() && queueSize > 0
      modifies this`queueFront, this`queueSize
      ensures View() == TakeSection(Cfg(), old(View()))
      ensures Valid() && old(Contents()) == [task] + Contents()
    {
      TakeRemoves(Cfg(), View());
      task := Task(taskQueue[queueFront].fn, taskQueue[queueFront].arg);
      queueFront := (queueFront + 1) % capacity;
      queueSize := queueSize - 1;
    }

    /** Lines 100 to 112: a woken worker asks whether it is to leave. */
    method ShrinkCheck() returns (leave: bool)
      requires Valid()
      modifies this`waitExitThrNum, this`liveThrNum
      ensures Valid() && Contents() == old(Contents())
      ensures leave <==> old(waitExitThrNum) > 0 && old(liveThrNum) > minThr
      ensures liveThrNum == old(liveThrNum) - (if leave then 1 else 0)
      ensures waitExitThrNum == old(waitExitThrNum) - (if old(waitExitThrNum) > 0 then 1 else 0)
    {
      leave := false;
      if waitExitThrNum > 0 {
        waitExitThrNum := waitExitThrNum - 1;
        if liveThrNum > minThr {
          liveThrNum := liveThrNum - 1;
          leave := true;
        }
      }
    }

    /** Lines 187 to 199 of adjust_thread: start workers in the lowest free slots until `vary`
        are started, live_thr_num reaches the maximum, or no slot is free. */
    method Grow() returns (added: nat)
      requires Valid()
      modifies this`liveThrNum, threads
      ensures Valid() && Contents() == old(Contents())
      ensures added <= vary && liveThrNum == old(liveThrNum) + added
      ensures added > 0 ==> liveThrNum <= maxThr
      ensures added == vary || liveThrNum >= maxThr || forall k :: 0 <= k < maxThr ==> threads[k]
      ensures Count(threads[..], Used) == Count(old(threads[..]), Used) + added
      ensures forall k :: 0 <= k < maxThr && old(threads[k]) ==> threads[k]
      ensures forall j, k :: 0 <= j < k < maxThr && threads[k] && !old(threads[k]) ==> threads[j]
    {
      added := 0;
      var i := 0;
      while i < maxThr && added < vary && liveThrNum < maxThr
        invariant 0 <= i <= maxThr && Valid() && Contents() == old(Contents())
        invariant added <= vary && liveThrNum == old(liveThrNum) + added
        invariant added > 0 ==> liveThrNum <= maxThr
        invariant forall k :: 0 <= k < i ==> threads[k]
        invariant forall k :: i <= k < maxThr ==> threads[k] == old(threads[k])
        invariant Count(threads[..], Used) == Count(old(threads[..]), Used) + added
        decreases maxThr - i
      {
        if !threads[i] {
          ghost var before := threads[..];
          threads[i] := true;
          CountUpdate(before, i, true, Used);
          assert threads[..] == before[i := true];
          added := added + 1;
          liveThrNum := liveThrNum + 1;
        }
        i := i + 1;
      }
    }
  }

  // The machine's sections are atomic: nobody else touches the ring while the lock is held.

  ghost predicate SameRing(sh: Shared, sh': Shared) {
    sh'.queue == sh.queue && sh'.front == sh.front && sh'.rear == sh.rear && sh'.size == sh.size
  }

  lemma WorkerOutside(c: Config, s: State, i: nat)
    requires c.capacity >= 1 && i < |s.workers| && !HoldsW(s.workers[i].pc)
    ensures SameRing(s.sh, WorkerStep(c, s, i).sh)
  {
  }

  lemma ProducerOutside(c: Config, s: State, j: nat, task: Task, pick: nat)
    requires c.capacity >= 1 && j < |s.producers| && !HoldsP(s.producers[j].pc)
    ensures SameRing(s.sh, ProducerStep(c, s, j, task, pick).sh)
  {
  }

  ghost predicate MovedBy(a: Action, o: Owner) {
    match a
    case Work(i) => o == OwnW(i)
    case Produce(j, _, _) => o == OwnP(j)
    case _ => false
  }

  /** A step of any thread but the holder leaves the ring, the lock and the holder alone. */
  lemma OnlyHolderTouchesRing(c: Config, s: State, a: Action)
    requires LockInv(s) && CounterInv(s) && c.capacity >= 1
    requires Enabled(s, a) && !MovedBy(a, s.lock) && !Holder(s).Free?
    ensures var s' := Step(c, s, a);
      SameRing(s.sh, s'.sh) && s'.lock == s.lock && Holder(s') == Holder(s)
  {
    match a
    case Work(i) =>
      WorkerOutside(c, s, i);
      WorkerLocal(c, s, i);
    case Produce(j, task, pick) =>
      ProducerOutside(c, s, j, task, pick);
      ProducerLocal(c, s, j, task, pick);
    case Manage(pick) => ManagerLocal(c, s, pick);
    case Destroy =>
    case SpuriousW(i) =>
    case SpuriousP(j) =>
  }

  /** How far the add section has come at each of its statements. */
  function PartialPut(c: Config, sh: Shared, t: Task, pc: PPc): Shared
    requires c.capacity >= 1
  {
    match pc
    case P316 => PutArg(sh, NULL)
    case P318 => PutFunction(PutArg(sh, NULL), t.fn)
    case P320 => PutArg(PutFunction(PutArg(sh, NULL), t.fn), t.arg)
    case P322 => RearStep(c, PutArg(PutFunction(PutArg(sh, NULL), t.fn), t.arg))
    case P325 => PutSection(c, sh, t)
    case _ => sh
  }

  predicate PutPc(pc: PPc) { pc in {P309, P316, P318, P320, P322, P325} }

  ghost predicate PutSoFar(c: Config, base: Shared, t: Task, s: State, j: nat)
    requires c.capacity >= 1
  {
    && j < |s.producers| && PutPc(s.producers[j].pc) && s.producers[j].task == t
    && SameRing(PartialPut(c, base, t, s.producers[j].pc), s.sh)
  }

  lemma PutStepwise(c: Config, s: State, base: Shared, t: Task, j: nat, task: Task, pick: nat)
    requires c.capacity >= 1 && PutSoFar(c, base, t, s, j) && s.producers[j].pc != P325
    ensures PutSoFar(c, base, t, ProducerStep(c, s, j, task, pick), j)
  {
    FillMove(c, s, j, task, pick);
    hide ProducerStep;
  }

  lemma PutAdvances(c: Config, s: State, a: Action, base: Shared, t: Task, j: nat)
    requires LockInv(s) && CounterInv(s) && c.capacity >= 1 && Enabled(s, a)
    requires PutSoFar(c, base, t, s, j) && s.producers[j].pc != P325
    ensures PutSoFar(c, base, t, Step(c, s, a), j)
  {
    if MovedBy(a, s.lock) {
      PutStepwise(c, s, base, t, j, a.task, a.pick);
    } else {
      OnlyHolderTouchesRing(c, s, a);
    }
  }

  lemma PutStarts(c: Config, s: State, j: nat)
    requires c.capacity >= 1 && j < |s.producers| && s.producers[j].pc == P309
    ensures PutSoFar(c, s.sh, s.producers[j].task, s, j)
  {
  }

  /** However the other threads are scheduled in between, a producer that goes from line 309 to
      line 325 has done to the ring what Put does. */
  lemma {:induction false} PutIsAtomic(c: Config, run: seq<State>, acts: seq<Action>, j: nat, k: nat, m: nat)
    requires IsRun(c, run, acts) && k <= m <= |acts|
    requires j < |run[k].producers| && run[k].producers[j].pc == P309
    requires forall n :: k <= n < m ==> j < |run[n].producers| && run[n].producers[j].pc != P325
    ensures PutSoFar(c, run[k].sh, run[k].producers[j].task, run[m], j)
    decreases m
  {
    hide IsRun, Next, RingInv, TaskInv, WakeInv, RoomInv, QuitInv, SizeInv, LockInv, CounterInv, PutSoFar;
    RunShape(c, run, acts);
    if k == m {
      PutStarts(c, run[k], j);
    } else {
      PutIsAtomic(c, run, acts, j, k, m - 1);
      RunInv(c, run, acts, m - 1);
      StepOf(c, run, acts, m - 1);
      PutAdvances(c, run[m - 1], acts[m - 1], run[k].sh, run[k].producers[j].task, j);
    }
  }

  /** How far the take section has come at each of its statements. */
  function PartialTake(c: Config, sh: Shared, pc: WPc): Shared
    requires c.capacity >= 1
  {
    match pc
    case W131 => FrontStep(c, sh)
    case W134 => TakeSection(c, sh)
    case _ => sh
  }

  predicate TakePc(pc: WPc) { pc in {W124, W125, W130, W131, W134} }

  /** The ring so far, and the task read so far. */
  ghost predicate TakeSoFar(c: Config, base: Shared, s: State, i: nat)
    requires c.capacity >= 1
  {
    && i < |s.workers| && TakePc(s.workers[i].pc)
    && SameRing(PartialTake(c, base, s.workers[i].pc), s.sh)
    && (s.workers[i].pc == W125 ==> s.workers[i].task.fn == Head(base).fn)
    && (s.workers[i].pc in {W130, W131, W134} ==> s.workers[i].task == Head(base))
  }

  /** What each statement of the section does to the ring and to the task read. */
  lemma TakeMove(c: Config, s: State, i: nat)
    requires c.capacity >= 1 && i < |s.workers| && TakePc(s.workers[i].pc) && s.workers[i].pc != W134
    ensures var w, s' := s.workers[i], WorkerStep(c, s, i);
      && |s'.workers| == |s.workers|
      && match w.pc
         case W124 => s'.workers[i].pc == W125 && s'.sh == s.sh && s'.workers[i].task == w.task.(fn := Head(s.sh).fn)
         case W125 => s'.workers[i].pc == W130 && s'.sh == s.sh && s'.workers[i].task == w.task.(arg := Head(s.sh).arg)
         case W130 => s'.workers[i].pc == W131 && s'.sh == FrontStep(c, s.sh) && s'.workers[i].task == w.task
         case _ => s'.workers[i].pc == W134 && s'.sh == s.sh.(size := s.sh.size - 1) && s'.workers[i].task == w.task
  {
    hide FrontStep, Head;
  }

  lemma TakeStepwise(c: Config, s: State, base: Shared, i: nat)
    requires c.capacity >= 1 && TakeSoFar(c, base, s, i) && s.workers[i].pc != W134
    ensures TakeSoFar(c, base, WorkerStep(c, s, i), i)
  {
    TakeMove(c, s, i);
    hide WorkerStep;
  }

  lemma TakeAdvances(c: Config, s: State, a: Action, base: Shared, i: nat)
    requires LockInv(s) && CounterInv(s) && c.capacity >= 1 && Enabled(s, a)
    requires TakeSoFar(c, base, s, i) && s.workers[i].pc != W134
    ensures TakeSoFar(c, base, Step(c, s, a), i)
  {
    if MovedBy(a, s.lock) {
      TakeStepwise(c, s, base, i);
    } else {
      OnlyHolderTouchesRing(c, s, a);
    }
  }

  /** However the other threads are scheduled in between, a worker that goes from line 124 to line 134
      has done to the ring what Take does, and holds the task that was at its head. */
  lemma {:induction false} TakeIsAtomic(c: Config, run: seq<State>, acts: seq<Action>, i: nat, k: nat, m: nat)
    requires IsRun(c, run, acts) && k <= m <= |acts|
    requires i < |run[k].workers| && run[k].workers[i].pc == W124
    requires forall n :: k <= n < m ==> i < |run[n].workers| && run[n].workers[i].pc != W134
    ensures TakeSoFar(c, run[k].sh, run[m], i)
    decreases m
  {
    hide IsRun, Next, RingInv, TaskInv, WakeInv, RoomInv, QuitInv, SizeInv, LockInv, CounterInv, TakeSoFar;
    RunShape(c, run, acts);
    if k == m {
      TakeStarts(c, run[k], i);
    } else {
      TakeIsAtomic(c, run, acts, i, k, m - 1);
      RunInv(c, run, acts, m - 1);
      StepOf(c, run, acts, m - 1);
      TakeAdvances(c, run[m - 1], acts[m - 1], run[k].sh, i);
    }
  }

  lemma TakeStarts(c: Config, s: State, i: nat)
    requires c.capacity >= 1 && i < |s.workers| && s.workers[i].pc == W124
    ensures TakeSoFar(c, s.sh, s, i)
  {
  }
}
