/**
  The thread pool of threadpool/main.c as a step machine: any number of workers and
  producers, the manager and the destroyer, one program counter a thread, one step a
  statement of a critical section.

  Repairs.  The worker's section from line 95 to line 137 is meant to hold `lock`, but the
  code departs from that; the machine models the meant discipline:
    - a worker takes `lock` before line 95 (program counter WEnter), which the code omits;
    - lines 109 and 118 release `lock`, where the code locks it a second time;
    - line 193 looks for an empty slot of `threads`, where the code tests for a used one;
    - `threads` has max_thr_num slots, where line 247 sizes it by queue_max_size.
  Line 238 starts `live_thr_num` at 0 although line 272 starts `min_thr_num` workers: the
  initial value stays a parameter (`live0`), so both readings are covered.

  A program counter is named after the line it is about to run.
*/
module PoolMachine {

  const NULL := 0

  datatype Task = Task(fn: int, arg: int)

  datatype Config = Config(
    minThr: nat,     // min_thr_num
    maxThr: nat,     // max_thr_num
    capacity: nat,   // queue_max_size
    live0: nat,      // what line 238 stores in live_thr_num
    vary: nat,       // DEFAULT_THREAD_VARY
    minWait: nat)    // MIN_WAIT_TSK_NUM

  ghost predicate ValidConfig(c: Config) {
    c.capacity >= 1 && c.minThr <= c.maxThr && c.live0 <= c.maxThr
  }

  /** The fields of threadpool_t that change; `threads` records which slots are used. */
  datatype Shared = Shared(
    queue: seq<Task>, front: int, rear: int, size: int,
    live: int, busy: int, waitExit: int, shutdown: bool, threads: seq<bool>)

  datatype Owner = Nobody | OwnW(w: nat) | OwnP(p: nat) | OwnM

  datatype WPc =
    | WEnter | W95 | W95s | W97 | WSleep | WWoken | W100 | W102 | W105 | W108 | W109 | WExit
    | W116 | W118 | WQuit | W124 | W125 | W130 | W131 | W134 | W137
    | W142 | W143 | W145 | W148 | W152 | W153 | W154

  datatype PPc =
    | PIdle | P292 | P295 | P295s | P297 | PSleep | PWoken
    | P300 | P302 | P303 | P309 | P316 | P318 | P320 | P322 | P325 | P326

  datatype MPc =
    | M170 | M174 | M175 | M176 | M177 | M179 | M180 | M181 | M184 | M186
    | M189 | M193 | M195 | M196 | M197 | M200 | M205 | M208 | M209 | M210 | M212 | MDone

  datatype DPc = D348 | D351 | D352(told: nat) | DDone

  /** `ticket` numbers the dequeue that gave the worker its task. */
  datatype Worker = Worker(pc: WPc, task: Task, ticket: nat)
  datatype Producer = Producer(pc: PPc, task: Task)
  datatype Manager = Manager(pc: MPc, size: int, live: int, busy: int, i: nat, added: nat)

  /** The pool, its threads, and four logs: the tasks enqueued and dequeued in order, which
      worker made each dequeue, and which dequeues have had their task run. */
  datatype State = State(
    sh: Shared, lock: Owner, counter: Owner,
    workers: seq<Worker>, producers: seq<Producer>, mgr: Manager, dst: DPc,
    enq: seq<Task>, deq: seq<Task>, taker: seq<nat>, ran: set<nat>)

  /** What the scheduler decides: who moves, which task a producer brings, and which sleeper
      a signal wakes.  Spurious wake-ups are moves of their own. */
  datatype Action =
    | Work(i: nat) | Produce(j: nat, task: Task, pick: nat) | Manage(pick: nat) | Destroy
    | SpuriousW(i: nat) | SpuriousP(j: nat)

  // Who holds `lock`, by program counter.

  predicate HoldsW(pc: WPc) {
    pc in {W95, W95s, W97, W100, W102, W105, W108, W109, W116, W118,
           W124, W125, W130, W131, W134, W137}
  }

  predicate HoldsP(pc: PPc) {
    pc in {P295, P295s, P297, P300, P302, P303, P309, P316, P318, P320, P322, P325, P326}
  }

  predicate HoldsM(pc: MPc) {
    pc in {M175, M176, M177, M189, M193, M195, M196, M197, M200, M209, M210}
  }

  /** pthread_cond_broadcast on queue_not_empty. */
  function WakeWorkers(ws: seq<Worker>): (r: seq<Worker>)
    ensures |r| == |ws|
    ensures forall k :: 0 <= k < |ws| ==>
              r[k] == if ws[k].pc == WSleep then ws[k].(pc := WWoken) else ws[k]
  {
    seq(|ws|, k requires 0 <= k < |ws| =>
      if ws[k].pc == WSleep then ws[k].(pc := WWoken) else ws[k])
  }

  /** pthread_cond_broadcast on queue_not_fu11. */
  function WakeProducers(ps: seq<Producer>): (r: seq<Producer>)
    ensures |r| == |ps|
    ensures forall k :: 0 <= k < |ps| ==>
              r[k] == if ps[k].pc == PSleep then ps[k].(pc := PWoken) else ps[k]
  {
    seq(|ps|, k requires 0 <= k < |ps| =>
      if ps[k].pc == PSleep then ps[k].(pc := PWoken) else ps[k])
  }

  /** A signal may name a worker only if that worker sleeps, and must when one does. */
  ghost predicate PickOk(ws: seq<Worker>, pick: nat) {
    (exists k :: 0 <= k < |ws| && ws[k].pc == WSleep) ==> pick < |ws| && ws[pick].pc == WSleep
  }

  /** pthread_cond_signal on queue_not_empty. */
  function Signal(ws: seq<Worker>, pick: nat): seq<Worker> {
    if pick < |ws| && ws[pick].pc == WSleep then ws[pick := ws[pick].(pc := WWoken)] else ws
  }

  // Stores to the pool, one per statement.

  function FrontStep(c: Config, sh: Shared): Shared
    requires c.capacity >= 1
  {
    sh.(front := (sh.front + 1) % c.capacity)
  }

  function RearStep(c: Config, sh: Shared): Shared
    requires c.capacity >= 1
  {
    sh.(rear := (sh.rear + 1) % c.capacity)
  }

  function PutFunction(sh: Shared, f: int): Shared {
    if 0 <= sh.rear < |sh.queue|
    then sh.(queue := sh.queue[sh.rear := sh.queue[sh.rear].(fn := f)]) else sh
  }

  function PutArg(sh: Shared, a: int): Shared {
    if 0 <= sh.rear < |sh.queue|
    then sh.(queue := sh.queue[sh.rear := sh.queue[sh.rear].(arg := a)]) else sh
  }

  function Head(sh: Shared): Task {
    if 0 <= sh.front < |sh.queue| then sh.queue[sh.front] else Task(NULL, NULL)
  }

  // Workers, threadpool_thread.

  ghost predicate WorkerEnabled(s: State, i: nat) {
    i < |s.workers| &&
    match s.workers[i].pc
    case WEnter | WWoken => s.lock == Nobody
    case W142 | W152 => s.counter == Nobody
    case WSleep | WExit | WQuit => false
    case _ => true
  }

  function GoW(s: State, i: nat, pc: WPc): State
    requires i < |s.workers|
  {
    s.(workers := s.workers[i := s.workers[i].(pc := pc)])
  }

  /** Lines 95 to 121: wait for work, leave when told to. */
  function WaitStep(c: Config, s: State, i: nat): State
    requires i < |s.workers|
  {
    match s.workers[i].pc
    case WEnter => GoW(s, i, W95).(lock := OwnW(i))
    case W95 => GoW(s, i, if s.sh.size == 0 then W95s else W116)
    case W95s => GoW(s, i, if s.sh.shutdown then W116 else W97)
    case W97 => GoW(s, i, WSleep).(lock := Nobody)
    case WWoken => GoW(s, i, W100).(lock := OwnW(i))
    case W100 => GoW(s, i, if s.sh.waitExit > 0 then W102 else W95)
    case W102 => GoW(s, i, W105).(sh := s.sh.(waitExit := s.sh.waitExit - 1))
    case W105 => GoW(s, i, if s.sh.live > c.minThr then W108 else W95)
    case W108 => GoW(s, i, W109).(sh := s.sh.(live := s.sh.live - 1))
    case W109 => GoW(s, i, WExit).(lock := Nobody)
    case W116 => GoW(s, i, if s.sh.shutdown then W118 else W124)
    case W118 => GoW(s, i, WQuit).(lock := Nobody)
    case _ => s
  }

  /** Lines 124 to 137: take a task off the ring. */
  function TakeStep(c: Config, s: State, i: nat): State
    requires i < |s.workers| && c.capacity >= 1
  {
    var w := s.workers[i];
    match w.pc
    case W124 => s.(workers := s.workers[i := w.(pc := W125, task := w.task.(fn := Head(s.sh).fn))])
    case W125 => s.(workers := s.workers[i := w.(pc := W130, task := w.task.(arg := Head(s.sh).arg))])
    case W130 => GoW(s, i, W131).(sh := FrontStep(c, s.sh))
    case W131 =>
      s.(workers := s.workers[i := w.(pc := W134, ticket := |s.deq|)],
         sh := s.sh.(size := s.sh.size - 1),
         deq := s.deq + [w.task], taker := s.taker + [i])
    case W134 => GoW(s, i, W137).(producers := WakeProducers(s.producers))
    case W137 => GoW(s, i, W142).(lock := Nobody)
    case _ => s
  }

  /** Lines 142 to 154: run the task, counted in busy_thr_num. */
  function RunStep(s: State, i: nat): State
    requires i < |s.workers|
  {
    match s.workers[i].pc
    case W142 => GoW(s, i, W143).(counter := OwnW(i))
    case W143 => GoW(s, i, W145).(sh := s.sh.(busy := s.sh.busy + 1))
    case W145 => GoW(s, i, W148).(counter := Nobody)
    case W148 => GoW(s, i, W152).(ran := s.ran + {s.workers[i].ticket})
    case W152 => GoW(s, i, W153).(counter := OwnW(i))
    case W153 => GoW(s, i, W154).(sh := s.sh.(busy := s.sh.busy - 1))
    case W154 => GoW(s, i, WEnter).(counter := Nobody)
    case _ => s
  }

  predicate Taking(pc: WPc) { pc in {W124, W125, W130, W131, W134, W137} }

  predicate Running(pc: WPc) { pc in {W142, W143, W145, W148, W152, W153, W154} }

  function WorkerStep(c: Config, s: State, i: nat): State
    requires i < |s.workers| && c.capacity >= 1
  {
    if Taking(s.workers[i].pc) then TakeStep(c, s, i)
    else if Running(s.workers[i].pc) then RunStep(s, i)
    else WaitStep(c, s, i)
  }

  // Producers, threadpool_add.

  ghost predicate ProducerEnabled(s: State, j: nat, pick: nat) {
    j < |s.producers| &&
    match s.producers[j].pc
    case P292 | PWoken => s.lock == Nobody
    case PSleep => false
    case P325 => PickOk(s.workers, pick)
    case _ => true
  }

  function GoP(s: State, j: nat, pc: PPc): State
    requires j < |s.producers|
  {
    s.(producers := s.producers[j := s.producers[j].(pc := pc)])
  }

  function ProducerStep(c: Config, s: State, j: nat, task: Task, pick: nat): State
    requires j < |s.producers| && c.capacity >= 1
  {
    var p := s.producers[j];
    match p.pc
    case PIdle => s.(producers := s.producers[j := Producer(P292, task)])
    case P292 => GoP(s, j, P295).(lock := OwnP(j))
    case P295 => GoP(s, j, if s.sh.size == c.capacity then P295s else P300)
    case P295s => GoP(s, j, if s.sh.shutdown then P300 else P297)
    case P297 => GoP(s, j, PSleep).(lock := Nobody)
    case PSleep => s
    case PWoken => GoP(s, j, P295).(lock := OwnP(j))
    case P300 => GoP(s, j, if s.sh.shutdown then P302 else P309)
    case P302 => GoP(s, j, P303).(workers := WakeWorkers(s.workers))
    case P303 => GoP(s, j, PIdle).(lock := Nobody)
    case P309 => GoP(s, j, P316).(sh := PutArg(s.sh, NULL))
    case P316 => GoP(s, j, P318).(sh := PutFunction(s.sh, p.task.fn))
    case P318 => GoP(s, j, P320).(sh := PutArg(s.sh, p.task.arg))
    case P320 => GoP(s, j, P322).(sh := RearStep(c, s.sh))
    case P322 =>
      GoP(s, j, P325).(sh := s.sh.(size := s.sh.size + 1), enq := s.enq + [p.task])
    case P325 => GoP(s, j, P326).(workers := Signal(s.workers, pick))
    case P326 => GoP(s, j, PIdle).(lock := Nobody)
  }

  // The manager, adjust_thread.

  ghost predicate ManagerEnabled(s: State, pick: nat) {
    match s.mgr.pc
    case M174 | M186 | M208 => s.lock == Nobody
    case M179 => s.counter == Nobody
    case M212 => PickOk(s.workers, pick)
    case MDone => false
    case _ => true
  }

  function GoM(s: State, pc: MPc): State {
    s.(mgr := s.mgr.(pc := pc))
  }

  function ManagerStep(c: Config, s: State, pick: nat): State {
    var m := s.mgr;
    match m.pc
    case M170 => GoM(s, if s.sh.shutdown then MDone else M174)
    case M174 => GoM(s, M175).(lock := OwnM)
    case M175 => s.(mgr := m.(pc := M176, size := s.sh.size))
    case M176 => s.(mgr := m.(pc := M177, live := s.sh.live))
    case M177 => GoM(s, M179).(lock := Nobody)
    case M179 => GoM(s, M180).(counter := OwnM)
    case M180 => s.(mgr := m.(pc := M181, busy := s.sh.busy))
    case M181 => GoM(s, M184).(counter := Nobody)
    case M184 => GoM(s, if m.size >= c.minWait && m.live < c.maxThr then M186 else M205)
    case M186 => s.(mgr := m.(pc := M189, i := 0, added := 0), lock := OwnM)
    case M189 => GoM(s, if m.i < c.maxThr && m.added < c.vary && s.sh.live < c.maxThr then M193 else M200)
    case M193 =>
      if m.i < |s.sh.threads| && !s.sh.threads[m.i] then GoM(s, M195)
      else s.(mgr := m.(pc := M189, i := m.i + 1))
    case M195 =>
      GoM(s, M196).(workers := s.workers + [Worker(WEnter, Task(NULL, NULL), 0)],
                    sh := if m.i < |s.sh.threads| then s.sh.(threads := s.sh.threads[m.i := true]) else s.sh)
    case M196 => s.(mgr := m.(pc := M197, added := m.added + 1))
    case M197 => s.(mgr := m.(pc := M189, i := m.i + 1), sh := s.sh.(live := s.sh.live + 1))
    case M200 => GoM(s, M205).(lock := Nobody)
    case M205 => GoM(s, if m.busy * 2 < m.live && m.live > c.minThr then M208 else M170)
    case M208 => GoM(s, M209).(lock := OwnM)
    case M209 => GoM(s, M210).(sh := s.sh.(waitExit := c.vary))
    case M210 => s.(mgr := m.(pc := M212, i := 0), lock := Nobody)
    case M212 =>
      if m.i < c.vary
      then s.(mgr := m.(i := m.i + 1), workers := Signal(s.workers, pick))
      else GoM(s, M170)
    case MDone => s
  }

  // The destroyer, treadpool_destory up to its broadcasts; line 348 takes no lock.

  ghost predicate DestroyEnabled(s: State) {
    match s.dst
    case D351 => s.mgr.pc == MDone
    case DDone => false
    case _ => true
  }

  function DestroyStep(s: State): State {
    match s.dst
    case D348 => s.(dst := D351, sh := s.sh.(shutdown := true))
    case D351 => s.(dst := D352(0))
    case D352(told) =>
      if told < s.sh.live then s.(dst := D352(told + 1), workers := WakeWorkers(s.workers))
      else s.(dst := DDone)
    case DDone => s
  }

  // The machine.

  ghost predicate Enabled(s: State, a: Action) {
    match a
    case Work(i) => WorkerEnabled(s, i)
    case Produce(j, _, pick) => ProducerEnabled(s, j, pick)
    case Manage(pick) => ManagerEnabled(s, pick)
    case Destroy => DestroyEnabled(s)
    case SpuriousW(i) => i < |s.workers| && s.workers[i].pc == WSleep
    case SpuriousP(j) => j < |s.producers| && s.producers[j].pc == PSleep
  }

  ghost function Step(c: Config, s: State, a: Action): State
    requires c.capacity >= 1 && Enabled(s, a)
  {
    match a
    case Work(i) => WorkerStep(c, s, i)
    case Produce(j, task, pick) => ProducerStep(c, s, j, task, pick)
    case Manage(pick) => ManagerStep(c, s, pick)
    case Destroy => DestroyStep(s)
    case SpuriousW(i) => GoW(s, i, WWoken)
    case SpuriousP(j) => GoP(s, j, PWoken)
  }

  /** What threadpool_create leaves (lines 235 to 279), with any number of producers idle. */
  ghost predicate Init(c: Config, s: State) {
    && |s.sh.queue| == c.capacity
    && s.sh.front == 0 && s.sh.rear == 0 && s.sh.size == 0
    && s.sh.live == c.live0 && s.sh.busy == 0 && s.sh.waitExit == 0 && !s.sh.shutdown
    && |s.sh.threads| == c.maxThr
    && (forall k :: 0 <= k < c.maxThr ==> s.sh.threads[k] == (k < c.minThr))
    && s.lock == Nobody && s.counter == Nobody
    && |s.workers| == c.minThr
    && (forall k :: 0 <= k < |s.workers| ==> s.workers[k].pc == WEnter)
    && (forall k :: 0 <= k < |s.producers| ==> s.producers[k].pc == PIdle)
    && s.mgr.pc == M170 && s.dst == D348
    && s.enq == [] && s.deq == [] && s.taker == [] && s.ran == {}
  }

  ghost predicate Next(c: Config, s: State, a: Action, s': State) {
    c.capacity >= 1 && Enabled(s, a) && s' == Step(c, s, a)
  }

  /** `run` is what the schedule `acts` makes of its first state. */
  ghost predicate IsRun(c: Config, run: seq<State>, acts: seq<Action>) {
    && ValidConfig(c)
    && |run| == |acts| + 1
    && Init(c, run[0])
    && forall k :: 0 <= k < |acts| ==> Next(c, run[k], acts[k], run[k + 1])
  }

  ghost predicate Reachable(c: Config, s: State) {
    exists run, acts :: IsRun(c, run, acts) && run[|acts|] == s
  }
}
