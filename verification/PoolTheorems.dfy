/** What holds in every state of every run of the pool. */
module PoolTheorems {
  import opened Counting
  import opened Modular
  import opened PoolMachine
  import opened PoolLocks
  import opened PoolRing
  import opened PoolWakeups
  import opened PoolSize

  ghost predicate Inv(c: Config, s: State) {
    && LockInv(s) && CounterInv(s) && RingInv(c, s) && TaskInv(s)
    && WakeInv(s) && RoomInv(c, s) && QuitInv(s) && SizeInv(c, s)
  }

  /** threadpool_create starts as many workers as slots it fills. */
  lemma {:induction false} FirstSlots(slots: seq<bool>, n: nat)
    requires n <= |slots| && forall k :: 0 <= k < |slots| ==> slots[k] == (k < n)
    ensures Count(slots, Used) == n
  {
    if slots != [] {
      var m := |slots| - 1;
      FirstSlots(slots[..m], if n == |slots| then m else n);
    }
  }

  lemma InitInv(c: Config, s: State)
    requires ValidConfig(c) && Init(c, s)
    ensures Inv(c, s)
  {
    CountBound(s.workers, Gone);
    CountBound(s.workers, Busy);
    FirstSlots(s.sh.threads, c.minThr);
    assert 0 % c.capacity == 0;
  }

  lemma StepInv(c: Config, s: State, a: Action, s': State)
    requires Inv(c, s) && Next(c, s, a, s')
    ensures Inv(c, s')
  {
    LockStep(c, s, a);
    RingStep(c, s, a);
    TaskStep(c, s, a);
    WakeStep(c, s, a);
    RoomStep(c, s, a);
    QuitStep(c, s, a);
    SizeStep(c, s, a);
  }

  lemma RunShape(c: Config, run: seq<State>, acts: seq<Action>)
    requires IsRun(c, run, acts)
    ensures |run| == |acts| + 1 && ValidConfig(c) && Init(c, run[0])
  {
  }

  lemma StepOf(c: Config, run: seq<State>, acts: seq<Action>, k: nat)
    requires IsRun(c, run, acts) && k < |acts|
    ensures Next(c, run[k], acts[k], run[k + 1])
  {
  }

  lemma {:induction false} RunInv(c: Config, run: seq<State>, acts: seq<Action>, k: nat)
    requires IsRun(c, run, acts) && k <= |acts|
    ensures Inv(c, run[k])
  {
    hide *;
    RunShape(c, run, acts);
    if k == 0 {
      InitInv(c, run[0]);
    } else {
      RunInv(c, run, acts, k - 1);
      StepOf(c, run, acts, k - 1);
      StepInv(c, run[k - 1], acts[k - 1], run[k]);
    }
  }

  lemma ReachableInv(c: Config, s: State)
    requires Reachable(c, s)
    ensures Inv(c, s)
  {
    var run, acts :| IsRun(c, run, acts) && run[|acts|] == s;
    RunInv(c, run, acts, |acts|);
  }

  /** The tasks in the ring, oldest first, read from `front` on. */
  function Window(c: Config, sh: Shared): (w: seq<Task>)
    requires |sh.queue| == c.capacity && 0 <= sh.size <= c.capacity && 0 <= sh.front < c.capacity
    ensures |w| == sh.size
    ensures forall k :: 0 <= k < sh.size ==> w[k] == sh.queue[Wrap(sh.front + k, c.capacity)]
  {
    seq(sh.size, k requires 0 <= k < sh.size => sh.queue[Wrap(sh.front + k, c.capacity)])
  }

  lemma WindowIsLog(c: Config, s: State, k: nat)
    requires RingInv(c, s) && Holder(s).Free? && k < s.sh.size
    ensures Window(c, s.sh)[k] == s.enq[|s.deq| + k]
  {
    ModAdd(|s.deq|, k, c.capacity);
    WrapIsMod(s.sh.front + k, c.capacity);
  }

  /** FIFO: with the lock free the ring is the enqueued log less the dequeued one, and the
      dequeued log is a prefix of the enqueued one. */
  lemma FifoWhenFree(c: Config, s: State)
    requires Reachable(c, s) && s.lock == Nobody
    ensures |s.sh.queue| == c.capacity >= 1 && 0 <= s.sh.size <= c.capacity && 0 <= s.sh.front < c.capacity
    ensures s.sh.rear == (s.sh.front + s.sh.size) % c.capacity
    ensures s.deq + Window(c, s.sh) == s.enq
  {
    ReachableInv(c, s);
    ModAdd(|s.deq|, s.sh.size, c.capacity);
    forall k: nat | k < s.sh.size
      ensures Window(c, s.sh)[k] == s.enq[|s.deq| + k]
    {
      WindowIsLog(c, s, k);
    }
  }

  /** Worker i has the task of enqueue k in its hands. */
  predicate Has(s: State, i: nat, k: nat) {
    i < |s.workers| && InHands(s.workers[i].pc) && s.workers[i].ticket == k
  }

  /** In every reachable state, lock held or not, the task of enqueue k is in the ring, or with
      exactly one worker, or run, and in no two of these places. */
  lemma EveryTaskInOnePlace(c: Config, s: State, k: nat)
    requires Reachable(c, s) && k < |s.enq|
    ensures |s.deq| <= |s.enq| && |s.taker| == |s.deq| && c.capacity >= 1 && |s.sh.queue| == c.capacity
    ensures k >= |s.deq| ==>
      s.sh.queue[k % c.capacity] == s.enq[k] && k !in s.ran && forall i :: !Has(s, i, k)
    ensures k < |s.deq| && k !in s.ran ==>
      && Has(s, s.taker[k], k) && s.workers[s.taker[k]].task == s.enq[k]
      && forall i :: Has(s, i, k) ==> i == s.taker[k]
    ensures k in s.ran ==> k < |s.deq| && forall i :: !Has(s, i, k)
  {
    ReachableInv(c, s);
  }

  /** No task is run twice: the one a worker is about to run has not been run. */
  lemma RunsOnce(c: Config, s: State, i: nat)
    requires Reachable(c, s) && i < |s.workers| && s.workers[i].pc == W148
    ensures var k := s.workers[i].ticket;
      k < |s.enq| && k !in s.ran && s.workers[i].task == s.enq[k]
  {
    ReachableInv(c, s);
  }

  /** Lost wake-ups: while some worker sleeps, every queued task has a woken worker on its way,
      or a worker took that wake-up with it through the shrink exit. */
  lemma WakeupsAccounted(c: Config, s: State)
    requires Reachable(c, s) && s.lock == Nobody && !s.sh.shutdown && SomeoneAsleep(s.workers)
    ensures s.sh.size <= Count(s.workers, Woken) + Count(s.workers, Exited)
  {
    ReachableInv(c, s);
    CoversWhenFree(s);
  }

  lemma ExtendRun(c: Config, run: seq<State>, acts: seq<Action>, a: Action, s': State)
    requires IsRun(c, run, acts) && Next(c, run[|acts|], a, s')
    ensures IsRun(c, run + [s'], acts + [a])
  {
    var run', acts' := run + [s'], acts + [a];
    forall k | 0 <= k < |acts'|
      ensures Next(c, run'[k], acts'[k], run'[k + 1])
    {
      if k < |acts| {
        assert Next(c, run[k], acts[k], run[k + 1]);
      }
    }
  }

  lemma ReachableStep(c: Config, s: State, a: Action, s': State)
    requires Reachable(c, s) && Next(c, s, a, s')
    ensures Reachable(c, s')
  {
    hide Next;
    var run, acts :| IsRun(c, run, acts) && run[|acts|] == s;
    ExtendRun(c, run, acts, a, s');
  }

  /** Manager, producers and `thread_counter` are where they were. */
  ghost predicate SameOthers(s: State, s': State) {
    s'.mgr == s.mgr && s'.producers == s.producers && s'.counter == s.counter
  }

  /** One statement on the way from the wait to the shrink exit. */
  lemma ExitStep(c: Config, s: State, i: nat, pc: WPc) returns (s': State)
    requires Reachable(c, s) && i < |s.workers| && s.lock == (if s.workers[i].pc == WWoken then Nobody else OwnW(i))
    requires match s.workers[i].pc
      case WWoken => pc == W100
      case W100 => s.sh.waitExit > 0 && pc == W102
      case W102 => pc == W105
      case W105 => s.sh.live > c.minThr && pc == W108
      case W108 => pc == W109
      case W109 => pc == WExit
      case _ => false
    ensures Reachable(c, s') && s'.workers == s.workers[i := s.workers[i].(pc := pc)]
    ensures s'.lock == (if pc == WExit then Nobody else OwnW(i))
    ensures s'.sh.size == s.sh.size && s'.sh.shutdown == s.sh.shutdown && SameOthers(s, s')
    ensures s'.sh.waitExit == s.sh.waitExit - if s.workers[i].pc == W102 then 1 else 0
    ensures s'.sh.live == s.sh.live - if s.workers[i].pc == W108 then 1 else 0
  {
    hide Reachable, TaskInv, WakeInv, RoomInv, QuitInv, SizeInv;
    ReachableInv(c, s);
    s' := WorkerStep(c, s, i);
    ReachableStep(c, s, Work(i), s');
  }

  lemma ExitBegins(c: Config, s: State, i: nat) returns (s': State)
    requires Reachable(c, s) && s.lock == Nobody && i < |s.workers| && s.workers[i].pc == WWoken
    requires s.sh.waitExit > 0 && s.sh.live > c.minThr
    ensures Reachable(c, s') && s'.lock == OwnW(i)
    ensures s'.sh.size == s.sh.size && s'.sh.shutdown == s.sh.shutdown && s'.sh.live == s.sh.live
    ensures s'.sh.waitExit == s.sh.waitExit - 1 && SameOthers(s, s')
    ensures s'.workers == s.workers[i := s.workers[i].(pc := W105)]
  {
    hide Reachable;
    var s1 := ExitStep(c, s, i, W100);
    var s2 := ExitStep(c, s1, i, W102);
    s' := ExitStep(c, s2, i, W105);
  }

  lemma ExitEnds(c: Config, s: State, i: nat) returns (s': State)
    requires Reachable(c, s) && s.lock == OwnW(i) && i < |s.workers| && s.workers[i].pc == W105
    requires s.sh.live > c.minThr
    ensures Reachable(c, s') && s'.lock == Nobody
    ensures s'.sh.waitExit == s.sh.waitExit && s'.sh.live == s.sh.live - 1
    ensures s'.sh.size == s.sh.size && s'.sh.shutdown == s.sh.shutdown && SameOthers(s, s')
    ensures s'.workers == s.workers[i := s.workers[i].(pc := WExit)]
  {
    hide Reachable;
    var s1 := ExitStep(c, s, i, W108);
    var s2 := ExitStep(c, s1, i, W109);
    s' := ExitStep(c, s2, i, WExit);
  }

  /** The exits are no slack in that bound: a woken worker that finds waitExit raised and the
      pool above its minimum leaves without a look at the queue, and nobody is woken for it. */
  lemma ShrinkExitSwallowsWakeup(c: Config, s: State, i: nat) returns (s': State)
    requires Reachable(c, s) && s.lock == Nobody && i < |s.workers| && s.workers[i].pc == WWoken
    requires s.sh.waitExit > 0 && s.sh.live > c.minThr
    ensures Reachable(c, s') && s'.lock == Nobody && s'.sh.size == s.sh.size && s'.sh.shutdown == s.sh.shutdown
    ensures s'.workers == s.workers[i := s.workers[i].(pc := WExit)] && SameOthers(s, s')
    ensures s'.sh.waitExit == s.sh.waitExit - 1 && s'.sh.live == s.sh.live - 1
    ensures Count(s'.workers, Woken) == Count(s.workers, Woken) - 1
    ensures Count(s'.workers, Exited) == Count(s.workers, Exited) + 1
  {
    hide Reachable;
    var s1 := ExitBegins(c, s, i);
    s' := ExitEnds(c, s1, i);
    CountUpdate(s.workers, i, s.workers[i].(pc := WExit), Woken);
    CountUpdate(s.workers, i, s.workers[i].(pc := WExit), Exited);
  }

  /** Before any shrink exit, a pool that holds a task has a worker that can move, or that waits only
      for `thread_counter`. */
  lemma QueueNeverStalls(c: Config, s: State) returns (i: nat)
    requires Reachable(c, s) && s.lock == Nobody && !s.sh.shutdown && s.sh.size > 0
    requires Count(s.workers, Exited) == 0 && s.workers != []
    ensures i < |s.workers|
    ensures WorkerEnabled(s, i) || (s.workers[i].pc in {W142, W152} && s.counter != Nobody)
  {
    ReachableInv(c, s);
    CountBound(s.workers, Exited);
    CountBound(s.workers, Woken);
    i := 0;
    if s.workers[0].pc == WSleep {
      WakeupsAccounted(c, s);
      i :| i < |s.workers| && Woken(s.workers[i]);
    }
    assert !Exited(s.workers[i]) && !Quitting(s.workers[i]);
  }

  /** Nobody blocks while holding `thread_counter`. */
  lemma CounterHolderCanMove(c: Config, s: State)
    requires Reachable(c, s) && s.counter != Nobody
    ensures match s.counter
      case OwnW(i) => WorkerEnabled(s, i)
      case OwnM => ManagerEnabled(s, 0)
      case _ => false
  {
    ReachableInv(c, s);
  }

  /** A producer sleeps only on a full ring; the ring never holds more than it can. */
  lemma ProducersSleepOnlyWhenFull(c: Config, s: State)
    requires Reachable(c, s)
    ensures 0 <= s.sh.size <= c.capacity
    ensures s.lock == Nobody && ProducerAsleep(s.producers) ==> s.sh.size == c.capacity
  {
    ReachableInv(c, s);
  }

  /** Workers that have not left, against live_thr_num; growth and busy count. */
  lemma PoolSizeAccounting(c: Config, s: State)
    requires Reachable(c, s) && s.lock == Nobody
    ensures (|s.workers| - Count(s.workers, Exited)) - s.sh.live == c.minThr - c.live0
    ensures s.sh.live <= c.maxThr && |s.workers| <= c.maxThr
    ensures s.sh.live >= c.live0 || s.sh.live >= c.minThr
    ensures 0 <= s.sh.waitExit <= c.vary && s.sh.busy == Count(s.workers, Busy)
  {
    ReachableInv(c, s);
    CountBound(s.sh.threads, Used);
    forall k | 0 <= k < |s.workers|
      ensures Gone(s.workers[k]) == Exited(s.workers[k])
    {
      assert !HoldsW(s.workers[k].pc);
    }
    CountAgree(s.workers, Gone, Exited);
  }

  /** A shrink exit leaves at least the minimum behind. */
  lemma ShrinkStopsAtMinimum(c: Config, s: State, i: nat)
    requires Reachable(c, s) && i < |s.workers| && s.workers[i].pc == W108
    ensures c.capacity >= 1 && WorkerStep(c, s, i).sh.live == s.sh.live - 1 >= c.minThr
  {
    ReachableInv(c, s);
  }

  /** A round starts at most `vary` workers, and only for a backlog it has seen; workers are told
      to leave only when fewer than half were seen busy. */
  lemma ManagerActsOnItsSnapshot(c: Config, s: State)
    requires Reachable(c, s)
    ensures s.mgr.pc == M195 ==> s.mgr.added < c.vary && s.mgr.size >= c.minWait && s.sh.live < c.maxThr
    ensures s.mgr.pc == M209 ==> s.mgr.busy * 2 < s.mgr.live && s.mgr.live > c.minThr
  {
    ReachableInv(c, s);
  }

  lemma {:induction false} AllowanceNeverGrows(c: Config, run: seq<State>, acts: seq<Action>, k: nat, m: nat)
    requires IsRun(c, run, acts) && k <= m <= |acts| && run[k].sh.shutdown
    ensures run[m].sh.shutdown && Allowance(run[m]) <= Allowance(run[k])
  {
    hide IsRun, Next, RingInv, TaskInv, WakeInv, RoomInv, QuitInv, SizeInv, LockInv, CounterInv, Allowance;
    RunShape(c, run, acts);
    if k < m {
      AllowanceNeverGrows(c, run, acts, k, m - 1);
      RunInv(c, run, acts, m - 1);
      StepOf(c, run, acts, m - 1);
      LateStep(c, run[m - 1], acts[m - 1], run[m]);
    }
  }

  /** At most one queue operation, enqueue or dequeue, completes after shutdown is raised,
      although line 348 raises it without the lock; none does unless some thread was past its
      test of `shutdown` when it was raised. */
  lemma AtMostOneLateOperation(c: Config, run: seq<State>, acts: seq<Action>, k: nat, m: nat)
    requires IsRun(c, run, acts) && k <= m <= |acts| && run[k].sh.shutdown
    ensures Completed(run[m]) <= Completed(run[k]) + 1
    ensures !Committed(Holder(run[k])) ==> Completed(run[m]) <= Completed(run[k])
  {
    AllowanceNeverGrows(c, run, acts, k, m);
  }

  /** Statements a committed holder has left up to the end of its operation. */
  function ToGo(h: Held): nat {
    match h
    case HeldW(w) => (match w.pc case W124 => 4 case W125 => 3 case W130 => 2 case W131 => 1 case _ => 0)
    case HeldP(p) =>
      (match p.pc case P309 => 5 case P316 => 4 case P318 => 3 case P320 => 2 case P322 => 1 case _ => 0)
    case Free => 0
  }

  lemma CommittedMoves(c: Config, s: State) returns (a: Action, s': State)
    requires c.capacity >= 1 && Committed(Holder(s))
    ensures Next(c, s, a, s') && ToGo(Holder(s')) < ToGo(Holder(s))
    ensures if ToGo(Holder(s)) == 1 then Completed(s') == Completed(s) + 1
            else Completed(s') == Completed(s) && Committed(Holder(s'))
  {
    a := match s.lock
      case OwnW(i) => Work(i)
      case OwnP(j) => Produce(j, Task(NULL, NULL), 0)
      case _ => Destroy;
    s' := Step(c, s, a);
  }

  /** `run'` goes on from `run`. */
  ghost predicate GoesOn(c: Config, run: seq<State>, acts: seq<Action>, run': seq<State>, acts': seq<Action>) {
    IsRun(c, run', acts') && run <= run' && acts <= acts'
  }

  lemma {:induction false} LateOperationCompletes(c: Config, run: seq<State>, acts: seq<Action>)
    returns (run': seq<State>, acts': seq<Action>)
    requires IsRun(c, run, acts) && Committed(Holder(run[|acts|]))
    ensures GoesOn(c, run, acts, run', acts') && Completed(run'[|acts'|]) == Completed(run[|acts|]) + 1
    decreases ToGo(Holder(run[|acts|]))
  {
    RunShape(c, run, acts);
    var a, s' := CommittedMoves(c, run[|acts|]);
    ExtendRun(c, run, acts, a, s');
    hide IsRun, Next, Committed, ToGo, Completed, Holder;
    run', acts' := run + [s'], acts + [a];
    if ToGo(Holder(run[|acts|])) != 1 {
      run', acts' := LateOperationCompletes(c, run', acts');
    }
  }

  /** From the moment shutdown is raised, a further operation can complete if and only if the holder of
      the lock was past its test of `shutdown` then, and never a second one. */
  lemma LateOperationsExactly(c: Config, run: seq<State>, acts: seq<Action>)
    requires IsRun(c, run, acts) && run[|acts|].sh.shutdown
    ensures Committed(Holder(run[|acts|])) <==>
      exists run', acts' :: GoesOn(c, run, acts, run', acts') && Completed(run'[|acts'|]) > Completed(run[|acts|])
    ensures forall run', acts' :: GoesOn(c, run, acts, run', acts') ==>
      Completed(run'[|acts'|]) <= Completed(run[|acts|]) + 1
  {
    RunShape(c, run, acts);
    hide IsRun, Committed, Completed, Holder;
    if Committed(Holder(run[|acts|])) {
      var run', acts' := LateOperationCompletes(c, run, acts);
    }
    forall run', acts' | GoesOn(c, run, acts, run', acts')
      ensures Completed(run'[|acts'|]) <= Completed(run[|acts|]) + 1
      ensures !Committed(Holder(run[|acts|])) ==> Completed(run'[|acts'|]) <= Completed(run[|acts|])
    {
      RunShape(c, run', acts');
      AtMostOneLateOperation(c, run', acts', |acts|, |acts'|);
    }
  }

  /** Nobody blocks while holding the lock. */
  lemma HolderCanMove(c: Config, s: State) returns (a: Action)
    requires Reachable(c, s) && s.lock != Nobody
    ensures Enabled(s, a)
    ensures match a
      case Work(i) => s.lock == OwnW(i)
      case Produce(j, _, _) => s.lock == OwnP(j)
      case Manage(_) => s.lock == OwnM
      case _ => false
  {
    hide Reachable, RingInv, TaskInv, WakeInv, RoomInv, QuitInv, SizeInv;
    ReachableInv(c, s);
    var pick: nat := 0;
    if SomeoneAsleep(s.workers) {
      pick :| pick < |s.workers| && s.workers[pick].pc == WSleep;
    }
    match s.lock
    case OwnW(i) => a := Work(i);
    case OwnP(j) => a := Produce(j, Task(NULL, NULL), pick);
    case OwnM => a := Manage(pick);
  }
}
