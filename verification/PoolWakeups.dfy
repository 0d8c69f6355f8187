/** Sleepers: no signal to a worker is lost but to a shrink exit, none to a producer at all. */
module PoolWakeups {
  import opened Counting
  import opened PoolMachine
  import opened PoolLocks
  import opened PoolRing

  /** Workers that answer for a queued task: woken, re-checking, about to dequeue, or gone
      through the shrink exit with the signal they were sent. */
  predicate Covers(w: Worker) {
    w.pc in {WWoken, W95, W95s, W97, W100, W102, W105, W108, W109, WExit, W116, W124, W125, W130, W131}
  }

  predicate Woken(w: Worker) { w.pc == WWoken }

  predicate Exited(w: Worker) { w.pc == WExit }

  ghost predicate SomeoneAsleep(ws: seq<Worker>) {
    exists k :: 0 <= k < |ws| && ws[k].pc == WSleep
  }

  predicate SignalDue(h: Held) { h.HeldP? && h.p.pc == P325 }

  ghost predicate WakeInv(s: State) {
    !s.sh.shutdown && SomeoneAsleep(s.workers) ==>
      s.sh.size <= Count(s.workers, Covers) + if SignalDue(Holder(s)) then 1 else 0
  }

  // One worker's step, without its neighbours.

  lemma WakeLocal(c: Config, s: State, i: nat)
    requires c.capacity >= 1 && WorkerEnabled(s, i) && !s.sh.shutdown
    requires s.workers[i].pc == W97 ==> s.sh.size == 0
    ensures var s' := WorkerStep(c, s, i);
      var w, w' := s.workers[i], s'.workers[i];
      && (w'.pc == WSleep ==> s'.sh.size == 0)
      && (s'.sh.size == 0
          || s'.sh.size - s.sh.size <= (if Covers(w') then 1 else 0) - (if Covers(w) then 1 else 0))
  {
  }

  lemma WakeWorker(c: Config, s: State, i: nat)
    requires WakeInv(s) && RingInv(c, s) && LockInv(s) && CounterInv(s) && WorkerEnabled(s, i)
    ensures WakeInv(WorkerStep(c, s, i))
  {
    var s' := WorkerStep(c, s, i);
    WorkerLocal(c, s, i);
    if !s.sh.shutdown && SomeoneAsleep(s'.workers) {
      WakeLocal(c, s, i);
      CountUpdate(s.workers, i, s'.workers[i], Covers);
    }
  }

  /** Waking somebody who sleeps adds one worker that answers for a task. */
  lemma SignalCovers(ws: seq<Worker>, pick: nat)
    requires PickOk(ws, pick)
    ensures SomeoneAsleep(ws) ==> Count(Signal(ws, pick), Covers) == Count(ws, Covers) + 1
    ensures !SomeoneAsleep(ws) ==> Signal(ws, pick) == ws
  {
    if SomeoneAsleep(ws) {
      CountUpdate(ws, pick, ws[pick].(pc := WWoken), Covers);
    }
  }

  lemma WakeProducer(c: Config, s: State, j: nat, task: Task, pick: nat)
    requires WakeInv(s) && LockInv(s) && c.capacity >= 1 && ProducerEnabled(s, j, pick)
    ensures WakeInv(ProducerStep(c, s, j, task, pick))
  {
    if s.producers[j].pc == P325 {
      SignalCovers(s.workers, pick);
    }
  }

  /** What the manager does that matters to sleepers: start a worker, or signal. */
  lemma ManagerWakes(c: Config, s: State, pick: nat)
    requires ManagerEnabled(s, pick) && (HoldsM(s.mgr.pc) <==> s.lock == OwnM)
    ensures var s' := ManagerStep(c, s, pick);
      && s'.sh.size == s.sh.size && s'.sh.shutdown == s.sh.shutdown
      && (s'.lock == s.lock || (!s.lock.OwnP? && !s'.lock.OwnP?)) && s'.producers == s.producers
      && (s'.workers == s.workers
          || s'.workers == s.workers + [Worker(WEnter, Task(NULL, NULL), 0)]
          || (PickOk(s.workers, pick) && s'.workers == Signal(s.workers, pick)))
  {
  }

  lemma WakeManager(c: Config, s: State, pick: nat)
    requires WakeInv(s) && LockInv(s) && ManagerEnabled(s, pick)
    ensures WakeInv(ManagerStep(c, s, pick))
  {
    var s' := ManagerStep(c, s, pick);
    ManagerWakes(c, s, pick);
    hide ManagerStep;
    if s'.workers == s.workers + [Worker(WEnter, Task(NULL, NULL), 0)] {
      CountAppend(s.workers, s'.workers[|s.workers|], Covers);
      assert forall k :: 0 <= k < |s'.workers| && s'.workers[k].pc == WSleep ==> s.workers[k].pc == WSleep;
    } else if s'.workers != s.workers {
      SignalCovers(s.workers, pick);
    }
  }

  lemma WakeSpurious(s: State, i: nat)
    requires WakeInv(s) && LockInv(s) && i < |s.workers| && s.workers[i].pc == WSleep
    ensures WakeInv(GoW(s, i, WWoken))
  {
    CountUpdate(s.workers, i, s.workers[i].(pc := WWoken), Covers);
  }

  /** The accounting of wake-ups survives every step, spurious wake-ups included. */
  lemma WakeStep(c: Config, s: State, a: Action)
    requires WakeInv(s) && RingInv(c, s) && LockInv(s) && CounterInv(s) && Enabled(s, a)
    ensures WakeInv(Step(c, s, a))
  {
    hide WorkerStep, ProducerStep, ManagerStep;
    match a
    case Work(i) => WakeWorker(c, s, i);
    case Produce(j, task, pick) => WakeProducer(c, s, j, task, pick);
    case Manage(pick) => WakeManager(c, s, pick);
    case Destroy =>
    case SpuriousW(i) => WakeSpurious(s, i);
    case SpuriousP(j) =>
  }

  /** With the lock free, only the woken and the shrunk answer for tasks. */
  lemma CoversWhenFree(s: State)
    requires LockInv(s) && s.lock == Nobody
    ensures Count(s.workers, Covers) == Count(s.workers, Woken) + Count(s.workers, Exited)
  {
    forall k | 0 <= k < |s.workers|
      ensures Covers(s.workers[k]) == (Woken(s.workers[k]) || Exited(s.workers[k]))
    {
      assert !HoldsW(s.workers[k].pc);
    }
    CountSplit(s.workers, Covers, Woken, Exited);
  }

  // Producers that wait for room.

  ghost predicate ProducerAsleep(ps: seq<Producer>) {
    exists j :: 0 <= j < |ps| && ps[j].pc == PSleep
  }

  predicate RoomNotAnnounced(h: Held) { h.HeldW? && h.w.pc == W134 }

  ghost predicate RoomInv(c: Config, s: State) {
    ProducerAsleep(s.producers) ==> s.sh.size == c.capacity || RoomNotAnnounced(Holder(s))
  }

  lemma RoomLocal(c: Config, s: State, i: nat)
    requires RingInv(c, s) && LockInv(s) && WorkerEnabled(s, i)
    ensures var s' := WorkerStep(c, s, i);
      && (s'.producers == s.producers || !ProducerAsleep(s'.producers))
      && (s'.sh.size == s.sh.size || RoomNotAnnounced(Holder(s')))
      && (RoomNotAnnounced(Holder(s)) ==> RoomNotAnnounced(Holder(s')) || !ProducerAsleep(s'.producers))
  {
  }

  lemma RoomProducer(c: Config, s: State, j: nat, task: Task, pick: nat)
    requires RoomInv(c, s) && RingInv(c, s) && LockInv(s) && ProducerEnabled(s, j, pick)
    ensures RoomInv(c, ProducerStep(c, s, j, task, pick))
  {
    var s' := ProducerStep(c, s, j, task, pick);
    ProducerLocal(c, s, j, task, pick);
  }

  /** A producer sleeps only while the ring is full, or until the lock's holder broadcasts. */
  lemma RoomStep(c: Config, s: State, a: Action)
    requires RoomInv(c, s) && RingInv(c, s) && LockInv(s) && CounterInv(s) && Enabled(s, a)
    ensures RoomInv(c, Step(c, s, a))
  {
    match a
    case Work(i) => RoomLocal(c, s, i);
    case Produce(j, task, pick) => RoomProducer(c, s, j, task, pick);
    case Manage(pick) => ManagerLocal(c, s, pick);
    case Destroy =>
    case SpuriousW(i) =>
    case SpuriousP(j) =>
  }

  // Workers that quit.

  predicate Quitting(w: Worker) { w.pc in {W118, WQuit} }

  ghost predicate QuitInv(s: State) {
    forall i :: 0 <= i < |s.workers| && Quitting(s.workers[i]) ==> s.sh.shutdown
  }

  lemma QuitWait(c: Config, s: State, i: nat)
    requires QuitInv(s) && WorkerEnabled(s, i) && !Taking(s.workers[i].pc) && !Running(s.workers[i].pc)
    ensures QuitInv(WaitStep(c, s, i))
  {
  }

  lemma QuitStep(c: Config, s: State, a: Action)
    requires QuitInv(s) && LockInv(s) && CounterInv(s) && c.capacity >= 1 && Enabled(s, a)
    ensures QuitInv(Step(c, s, a))
  {
    match a
    case Work(i) =>
      if !Taking(s.workers[i].pc) && !Running(s.workers[i].pc) {
        QuitWait(c, s, i);
      }
    case Produce(j, task, pick) => ProducerLocal(c, s, j, task, pick);
    case Manage(pick) => ManagerLocal(c, s, pick);
    case Destroy =>
    case SpuriousW(i) =>
    case SpuriousP(j) =>
  }
}
