/** The pools that can leave a task behind, and those that can forget a sleeper, exactly. */
module PoolLoss {
  import opened Counting
  import opened PoolMachine
  import opened PoolWakeups
  import opened PoolSize
  import opened PoolTheorems
  import opened PoolPeak
  import opened PoolRuns

  /** At the top of its loop, or gone. */
  ghost predicate Settled(ws: seq<Worker>) {
    forall i :: 0 <= i < |ws| ==> ws[i].pc in {WEnter, WExit}
  }

  /** Between rounds of the manager: no worker is busy or asleep, and the one producer is idle. */
  ghost predicate Resting(c: Config, s: State) {
    && Reachable(c, s) && s.lock == Nobody && s.counter == Nobody && s.mgr.pc == M170 && !s.sh.shutdown
    && |s.producers| == 1 && s.producers[0].pc == PIdle && Settled(s.workers)
  }

  /** Workers that have not left, as live_thr_num has it. */
  function Here(c: Config, sh: Shared): int { sh.live + c.minThr - c.live0 }

  lemma RestingFacts(c: Config, s: State)
    requires Resting(c, s)
    ensures c.capacity >= 1 && c.minThr <= c.maxThr && 0 <= s.sh.size <= c.capacity
    ensures Here(c, s.sh) == |s.workers| - Count(s.workers, Gone) && s.sh.live <= Peak(c)
    ensures |s.workers| <= c.maxThr && (!Grows(c) ==> |s.workers| == c.minThr)
    ensures s.sh.busy == 0 && |s.sh.threads| == c.maxThr && Count(s.sh.threads, Used) == |s.workers|
  {
    LiveStaysBelowPeak(c, s);
    ProducersSleepOnlyWhenFull(c, s);
    ReachablePeak(c, s);
    CountBound(s.workers, Busy);
    CountBound(s.sh.threads, Used);
  }

  /** Somebody is here exactly when a worker is at the top of its loop. */
  lemma FindWorker(c: Config, s: State) returns (i: nat)
    requires Resting(c, s) && Here(c, s.sh) >= 1
    ensures i < |s.workers| && s.workers[i].pc == WEnter
  {
    RestingFacts(c, s);
    CountBound(s.workers, Gone);
    i :| i < |s.workers| && !Gone(s.workers[i]);
  }

  lemma NobodyGone(c: Config, s: State)
    requires Resting(c, s) && Here(c, s.sh) == |s.workers|
    ensures forall i :: 0 <= i < |s.workers| ==> s.workers[i].pc == WEnter
  {
    RestingFacts(c, s);
    CountBound(s.workers, Gone);
  }

  // The start.

  function StartState(c: Config): State
    requires c.minThr <= c.maxThr
  {
    State(Shared(seq(c.capacity, _ => Task(NULL, NULL)), 0, 0, 0, c.live0, 0, 0, false,
                 seq(c.maxThr, k => k < c.minThr)),
          Nobody, Nobody, seq(c.minThr, _ => NEWCOMER), [Producer(PIdle, Task(NULL, NULL))],
          Manager(M170, 0, 0, 0, 0, 0), D348, [], [], [], {})
  }

  lemma InitReachable(c: Config, s: State)
    requires ValidConfig(c) && Init(c, s)
    ensures Reachable(c, s)
  {
    hide Init, Next;
    assert IsRun(c, [s], []);
  }

  lemma Start(c: Config) returns (s: State)
    requires ValidConfig(c)
    ensures Resting(c, s) && s.sh.size == 0 && s.sh.live == c.live0 && |s.workers| == c.minThr
  {
    s := StartState(c);
    assert Init(c, s);
    InitReachable(c, s);
  }

  /** A pool starts with any number of producers about it. */
  lemma AnyProducers(c: Config, n: nat) returns (s: State)
    requires ValidConfig(c)
    ensures Reachable(c, s) && |s.producers| == n && |s.workers| == c.minThr && s.sh.live == c.live0
  {
    s := StartState(c).(producers := seq(n, _ => Producer(PIdle, Task(NULL, NULL))));
    assert Init(c, s);
    InitReachable(c, s);
  }

  // The backlog.

  /** n tasks arrive. */
  lemma {:induction false} Backlog(c: Config, s: State, n: nat) returns (s': State)
    requires Resting(c, s) && s.sh.size + n <= c.capacity
    ensures Resting(c, s') && s'.sh.size == s.sh.size + n
    ensures s'.sh.live == s.sh.live && |s'.workers| == |s.workers|
    decreases n
  {
    hide Reachable;
    s' := s;
    if n > 0 {
      RestingFacts(c, s);
      s' := AddTask(c, s, 0, Task(1, 1), 0);
      s' := Backlog(c, s', n - 1);
    }
  }

  /** One worker runs all there is. */
  lemma {:induction false} Drain(c: Config, s: State, i: nat) returns (s': State)
    requires Resting(c, s) && i < |s.workers| && s.workers[i].pc == WEnter && s.sh.size >= 0
    ensures Resting(c, s') && s'.sh.size == 0 && s'.sh.live == s.sh.live && s'.sh.waitExit == s.sh.waitExit
    ensures |s'.workers| == |s.workers| && s'.workers[i].pc == WEnter
    decreases s.sh.size
  {
    hide Reachable;
    s' := s;
    if s.sh.size > 0 {
      RestingFacts(c, s);
      s' := ServeOne(c, s, i);
      s' := Drain(c, s', i);
    }
  }

  // A round of the manager with nobody asleep.

  /** What growth leaves alone: births and live_thr_num go together. */
  ghost predicate Grown(s: State, s': State) {
    && s'.producers == s.producers && s'.counter == s.counter && Settled(s'.workers)
    && s'.sh.size == s.sh.size && s'.sh.shutdown == s.sh.shutdown && s'.sh.live >= s.sh.live
    && |s'.workers| - |s.workers| == s'.sh.live - s.sh.live
    && s'.mgr.live == s.mgr.live && s'.mgr.busy == s.mgr.busy
  }

  /** The loop of line 189: it starts somebody unless a limit is reached or no slot is empty. */
  lemma {:induction false} Grow(c: Config, s: State) returns (s': State)
    requires Reachable(c, s) && c.capacity >= 1 && s.mgr.pc == M189 && Settled(s.workers)
    requires |s.sh.threads| == c.maxThr
    ensures Reachable(c, s') && s'.mgr.pc == M205 && s'.lock == Nobody && Grown(s, s')
    ensures s'.sh.live > s.sh.live || s.mgr.added >= c.vary || s.sh.live >= c.maxThr
            || forall k :: s.mgr.i <= k < c.maxThr ==> s.sh.threads[k]
    decreases c.maxThr - s.mgr.i
  {
    hide Reachable;
    if s.mgr.i >= c.maxThr || s.mgr.added >= c.vary || s.sh.live >= c.maxThr {
      s' := EndGrowth(c, s);
    } else if s.sh.threads[s.mgr.i] {
      s' := PassSlot(c, s);
      s' := Grow(c, s');
    } else {
      s' := FindSlot(c, s);
      s' := FillSlot(c, s');
      s' := Grow(c, s');
    }
  }

  lemma SlotIsEmpty(c: Config, s: State)
    requires Resting(c, s) && |s.workers| < c.maxThr
    ensures |s.sh.threads| == c.maxThr && exists k :: 0 <= k < c.maxThr && !s.sh.threads[k]
  {
    RestingFacts(c, s);
    CountBound(s.sh.threads, Used);
  }

  /** What makes a round start somebody. */
  predicate WillGrow(c: Config, s: State) {
    Grows(c) && s.sh.size >= c.minWait && s.sh.live < c.maxThr && |s.workers| < c.maxThr
  }

  /** Lines 170 to 200. */
  lemma GrowthHalf(c: Config, s: State) returns (s': State)
    requires Resting(c, s)
    ensures Reachable(c, s') && s'.mgr.pc == M205 && s'.lock == Nobody && s'.counter == Nobody && Grown(s, s'.(mgr := s.mgr))
    ensures s'.mgr.live == s.sh.live && s'.mgr.busy == 0
    ensures WillGrow(c, s) ==> s'.sh.live > s.sh.live
  {
    hide Reachable;
    RestingFacts(c, s);
    s' := Snapshot(c, s);
    s' := Manages(c, s');
    if s'.mgr.pc == M186 {
      s' := Manages(c, s');
      if |s.workers| < c.maxThr {
        SlotIsEmpty(c, s);
      }
      s' := Grow(c, s');
    }
  }

  /** A whole round, lines 170 to 216: a snapshot above the minimum raises wait_exit_thr_num. */
  lemma Round(c: Config, s: State) returns (s': State)
    requires Resting(c, s)
    ensures Resting(c, s') && s'.sh.size == s.sh.size && s'.sh.live >= s.sh.live
    ensures |s'.workers| - |s.workers| == s'.sh.live - s.sh.live
    ensures s.sh.live > c.minThr ==> s'.sh.waitExit == c.vary
    ensures WillGrow(c, s) ==> s'.sh.live > s.sh.live
  {
    hide Reachable;
    RestingFacts(c, s);
    s' := GrowthHalf(c, s);
    s' := Manages(c, s');
    if s'.mgr.pc == M208 {
      s' := AskToLeave(c, s');
      s' := SignalNobody(c, s');
    }
  }

  lemma {:induction false} GrowToPeak(c: Config, s: State) returns (s': State)
    requires Resting(c, s) && Grows(c) && s.sh.size >= c.minWait && Here(c, s.sh) == |s.workers|
    ensures Resting(c, s') && s'.sh.size == s.sh.size && Here(c, s'.sh) == |s'.workers|
    ensures c.minThr <= c.maxThr && s'.sh.live == Peak(c)
    decreases c.maxThr - s.sh.live
  {
    hide Reachable, Resting;
    RestingFacts(c, s);
    s' := s;
    if s.sh.live < Peak(c) {
      s' := Round(c, s);
      s' := GrowToPeak(c, s');
    }
  }

  /** live_thr_num does reach its peak, with nobody gone. */
  lemma PeakIsReached(c: Config) returns (s: State)
    requires ValidConfig(c)
    ensures Resting(c, s) && s.sh.live == Peak(c) && |s.workers| == Crew(c)
  {
    hide Reachable, Resting;
    s := Start(c);
    if Grows(c) {
      s := Backlog(c, s, c.minWait);
      s := GrowToPeak(c, s);
    }
  }

  // A task left behind.

  /** Workers from k on fall asleep one by one. */
  lemma {:induction false} SleepFrom(c: Config, s: State, k: nat) returns (s': State)
    requires Reachable(c, s) && c.capacity >= 1 && s.lock == Nobody && s.sh.size == 0 && !s.sh.shutdown
    requires k <= |s.workers|
    requires forall i :: 0 <= i < |s.workers| ==> s.workers[i].pc == if i < k then WSleep else WEnter
    ensures Reachable(c, s') && s' == s.(workers := s'.workers) && |s'.workers| == |s.workers|
    ensures forall i :: 0 <= i < |s'.workers| ==> s'.workers[i].pc == WSleep
    decreases |s.workers| - k
  {
    hide Reachable;
    s' := s;
    if k < |s.workers| {
      s' := FallAsleep(c, s, k);
      s' := SleepFrom(c, s', k + 1);
    }
  }

  /** Lock free and no shutdown, a task queued, and every worker asleep or gone. */
  ghost predicate Unattended(s: State) {
    && s.lock == Nobody && !s.sh.shutdown && s.sh.size > 0 && s.workers != []
    && forall i :: 0 <= i < |s.workers| ==> s.workers[i].pc in {WSleep, WExit}
  }

  /** ... and nobody owes a signal: no add is under way, and the manager is about to look at the pool
      anew. */
  ghost predicate Stranded(s: State) {
    && Unattended(s) && s.counter == Nobody && s.mgr.pc == M170
    && forall j :: 0 <= j < |s.producers| ==> s.producers[j].pc == PIdle
  }

  /** Lock free and no shutdown, somebody asleep, and more tasks queued than workers woken for them. */
  ghost predicate Uncovered(s: State) {
    s.lock == Nobody && !s.sh.shutdown && SomeoneAsleep(s.workers) && s.sh.size > Count(s.workers, Woken)
  }

  lemma StrandedIsUncovered(s: State)
    requires Unattended(s) && SomeoneAsleep(s.workers)
    ensures Uncovered(s)
  {
    CountBound(s.workers, Woken);
  }

  /** The crew at rest at its peak, with workers asked to leave while none of them sleeps. */
  lemma AskedAtPeak(c: Config) returns (s: State)
    requires ValidConfig(c) && CanStrand(c)
    ensures Resting(c, s) && s.sh.size == 0 && s.sh.live == Peak(c) && s.sh.waitExit == c.vary
    ensures |s.workers| == Crew(c)
  {
    hide Reachable, Resting;
    s := PeakIsReached(c);
    RestingFacts(c, s);
    s := Round(c, s);
    RestingFacts(c, s);
    var i := FindWorker(c, s);
    s := Drain(c, s, i);
  }

  /** Everybody asleep, one worker is woken for a task and leaves. */
  lemma LeaveBehind(c: Config) returns (s: State)
    requires ValidConfig(c) && CanStrand(c)
    ensures Reachable(c, s) && Stranded(s)
    ensures |s.workers| == Crew(c) && forall i :: 1 <= i < |s.workers| ==> s.workers[i].pc == WSleep
  {
    hide Reachable;
    s := AskedAtPeak(c);
    NobodyGone(c, s);
    s := SleepFrom(c, s, 0);
    s := AddTask(c, s, 0, Task(1, 1), 0);
    s := ShrinkExitSwallowsWakeup(c, s, 0);
  }

  /** A pool can leave a task with nobody to run it if and only if workers can be told to leave (`vary`
      at least 1 and live_thr_num able to pass its minimum) and it can have a worker at all.  With line
      238 as it is, `live0` at 0, the latter follows. */
  lemma TasksStrandedExactly(c: Config)
    requires ValidConfig(c)
    ensures CanStrand(c) <==> exists s :: Reachable(c, s) && Stranded(s)
    ensures CanStrand(c) <==> exists s :: Reachable(c, s) && Unattended(s)
    ensures c.live0 == 0 ==> (CanStrand(c) <==> c.vary >= 1 && Peak(c) > c.minThr)
  {
    if CanStrand(c) {
      var s := LeaveBehind(c);
    }
    hide Reachable;
    forall s | Reachable(c, s) && Unattended(s)
      ensures CanStrand(c)
    {
      if !CanStrand(c) {
        var i := NoTaskStranded(c, s);
      }
    }
  }

  /** A sleeper can be forgotten, more tasks queued than workers woken for them while it sleeps, if and
      only if in addition there can be two workers. */
  lemma SleepersForgottenExactly(c: Config)
    requires ValidConfig(c)
    ensures CanLose(c) <==> exists s :: Reachable(c, s) && Stranded(s) && SomeoneAsleep(s.workers)
    ensures CanLose(c) <==> exists s :: Reachable(c, s) && Uncovered(s)
  {
    if CanLose(c) {
      var s := LeaveBehind(c);
      assert s.workers[1].pc == WSleep;
      StrandedIsUncovered(s);
    }
    hide Reachable, CanLose;
    forall s | Reachable(c, s) && (Uncovered(s) || (Stranded(s) && SomeoneAsleep(s.workers)))
      ensures CanLose(c)
    {
      if Stranded(s) && SomeoneAsleep(s.workers) {
        StrandedIsUncovered(s);
      }
      if !CanLose(c) {
        NoWakeupLost(c, s);
      }
    }
  }

  /** The pool of lines 9, 10, 238 and 369 is one that can. */
  lemma MainCanStrandTask() returns (s: State)
    ensures Reachable(Config(3, 100, 100, 0, 10, 10), s) && Stranded(s) && SomeoneAsleep(s.workers)
  {
    hide Reachable, Stranded;
    s := LeaveBehind(Config(3, 100, 100, 0, 10, 10));
    assert s.workers[1].pc == WSleep;
  }
}
