/** The manager: a round of adjust_thread in full, and growth as one step. */
module PoolManager {
  import opened Counting
  import opened Numbers
  import opened PoolMachine
  import opened PoolLocks
  import opened PoolRing
  import opened PoolWakeups
  import opened PoolSize
  import opened PoolTheorems
  import opened PoolRuns

  // Lines 189 to 200, interleaved with every other thread.

  /** How far the loop has come, from a pool `base` with `born` workers: slots below i are used, those from
      i on are as they were but for the one being filled, and started workers, used slots and live_thr_num
      keep step. */
  ghost predicate GrownSoFar(c: Config, base: Shared, born: nat, s: State) {
    var m := s.mgr;
    var filling := m.pc in {M196, M197};
    && m.pc in {M189, M193, M195, M196, M197, M200}
    && |s.sh.threads| == |base.threads| == c.maxThr
    && |s.workers| == born + m.added + (if m.pc == M196 then 1 else 0)
    && s.sh.live == base.live + m.added - (if m.pc == M197 then 1 else 0)
    && (forall j :: 0 <= j < m.i && j < c.maxThr ==> s.sh.threads[j])
    && (forall j :: m.i <= j < c.maxThr ==> s.sh.threads[j] == (base.threads[j] || (filling && j == m.i)))
    && (m.pc in {M193, M195, M196, M197} ==> m.i < c.maxThr)
    && (filling ==> !base.threads[m.i])
    && m.added <= c.vary
    && (m.pc == M200 ==> m.i >= c.maxThr || m.added == c.vary || s.sh.live >= c.maxThr)
  }

  predicate InLoop(pc: MPc) { pc in {M189, M193, M195, M196, M197} }

  lemma GrownStepwise(c: Config, s: State, base: Shared, born: nat, pick: nat)
    requires GrownSoFar(c, base, born, s) && InLoop(s.mgr.pc) && ManagerTested(c, s.sh, s.mgr)
    ensures GrownSoFar(c, base, born, ManagerStep(c, s, pick))
  {
  }

  /** While the manager is in the loop nobody else touches slots, live_thr_num or the number of workers. */
  lemma GrowthIsHeld(c: Config, s: State, a: Action)
    requires LockInv(s) && CounterInv(s) && c.capacity >= 1 && Enabled(s, a) && HoldsM(s.mgr.pc) && !a.Manage?
    ensures var s' := Step(c, s, a);
      s'.mgr == s.mgr && |s'.workers| == |s.workers| && s'.sh.threads == s.sh.threads && s'.sh.live == s.sh.live
  {
    match a
    case Work(i) =>
      WorkerLocal(c, s, i);
      SizeLocal(c, s, i);
    case Produce(j, task, pick) => ProducerLocal(c, s, j, task, pick);
    case _ =>
  }

  lemma GrownAdvances(c: Config, s: State, a: Action, s': State, base: Shared, born: nat)
    requires LockInv(s) && CounterInv(s) && ManagerTested(c, s.sh, s.mgr) && Next(c, s, a, s')
    requires GrownSoFar(c, base, born, s) && InLoop(s.mgr.pc)
    ensures GrownSoFar(c, base, born, s')
  {
    if a.Manage? {
      GrownStepwise(c, s, base, born, a.pick);
    } else {
      GrowthIsHeld(c, s, a);
      hide Step, Enabled;
    }
  }

  lemma TestedOf(c: Config, s: State)
    requires Inv(c, s)
    ensures LockInv(s) && CounterInv(s) && ManagerTested(c, s.sh, s.mgr) && |s.sh.threads| == c.maxThr
  {
  }

  /** However other threads are interleaved, the loop that starts workers does to slots, live_thr_num and
      workers what GrownSoFar says, up to its end at line 200. */
  lemma {:induction false} GrowIsAtomic(c: Config, run: seq<State>, acts: seq<Action>, k: nat, m: nat)
    requires IsRun(c, run, acts) && k <= m <= |acts|
    requires run[k].mgr.pc == M189 && run[k].mgr.i == 0 && run[k].mgr.added == 0
    requires forall n :: k <= n < m ==> InLoop(run[n].mgr.pc)
    ensures GrownSoFar(c, run[k].sh, |run[k].workers|, run[m])
    decreases m
  {
    hide IsRun, Next, Inv, GrownSoFar;
    RunShape(c, run, acts);
    if k == m {
      RunInv(c, run, acts, k);
      TestedOf(c, run[k]);
      GrownStarts(c, run[k]);
    } else {
      GrowIsAtomic(c, run, acts, k, m - 1);
      RunInv(c, run, acts, m - 1);
      TestedOf(c, run[m - 1]);
      StepOf(c, run, acts, m - 1);
      GrownAdvances(c, run[m - 1], acts[m - 1], run[m], run[k].sh, |run[k].workers|);
    }
  }

  lemma GrownStarts(c: Config, s: State)
    requires s.mgr.pc == M189 && s.mgr.i == 0 && s.mgr.added == 0 && |s.sh.threads| == c.maxThr
    ensures GrownSoFar(c, s.sh, |s.workers|, s)
  {
  }

  // A round, left alone.

  predicate Sleeping(w: Worker) { w.pc == WSleep }

  /** Started workers come after those there were. */
  ghost predicate Started(ws: seq<Worker>, ws': seq<Worker>) {
    && |ws| <= |ws'| && ws'[..|ws|] == ws
    && forall k :: |ws| <= k < |ws'| ==> ws'[k] == NEWCOMER
  }

  /** What growth leaves alone. */
  ghost predicate OnlyGrown(s: State, s': State) {
    && s' == s.(workers := s'.workers, lock := s'.lock, mgr := s'.mgr,
                sh := s.sh.(live := s'.sh.live, threads := s'.sh.threads))
    && Started(s.workers, s'.workers)
    && s'.sh.live - s.sh.live == |s'.workers| - |s.workers|
    && s'.mgr.live == s.mgr.live && s'.mgr.busy == s.mgr.busy
  }

  lemma {:induction false} GrowAlone(c: Config, s: State) returns (s': State)
    requires Reachable(c, s) && c.capacity >= 1 && s.mgr.pc == M189 && |s.sh.threads| == c.maxThr
    requires s.sh.live <= c.maxThr && s.mgr.added <= c.vary
    requires forall k :: 0 <= k < s.mgr.i && k < c.maxThr ==> s.sh.threads[k]
    ensures Reachable(c, s') && s'.mgr.pc == M205 && s'.lock == Nobody && OnlyGrown(s, s')
    ensures |s'.workers| - |s.workers| <= c.vary - s.mgr.added && s'.sh.live <= c.maxThr
    ensures |s'.sh.threads| == c.maxThr
    ensures |s'.workers| - |s.workers| == c.vary - s.mgr.added || s'.sh.live == c.maxThr
            || forall k :: 0 <= k < c.maxThr ==> s'.sh.threads[k]
    decreases c.maxThr - s.mgr.i
  {
    hide Reachable;
    if s.mgr.i >= c.maxThr || s.mgr.added >= c.vary || s.sh.live >= c.maxThr {
      s' := EndGrowth(c, s);
    } else if s.sh.threads[s.mgr.i] {
      s' := PassSlot(c, s);
      s' := GrowAlone(c, s');
    } else {
      s' := FindSlot(c, s);
      s' := FillSlot(c, s');
      s' := GrowAlone(c, s');
    }
  }

  /** How many workers a round starts. */
  function Births(c: Config, s: State): int {
    if s.sh.size >= c.minWait && s.sh.live < c.maxThr
    then var free := c.maxThr - |s.workers|;
      var room := if free <= c.maxThr - s.sh.live then free else c.maxThr - s.sh.live;
      if c.vary <= room then c.vary else room
    else 0
  }

  lemma BirthFacts(c: Config, s: State)
    requires Reachable(c, s)
    ensures |s.sh.threads| == c.maxThr && s.sh.live <= c.maxThr && |s.workers| <= c.maxThr
    ensures |s.workers| == c.maxThr <==> forall k :: 0 <= k < c.maxThr ==> s.sh.threads[k]
  {
    ReachableInv(c, s);
    CountBound(s.sh.threads, Used);
  }

  /** Lines 170 to 200. */
  lemma GrowthRound(c: Config, s: State) returns (s': State)
    requires Reachable(c, s) && c.capacity >= 1 && s.mgr.pc == M170
    requires s.lock == Nobody && s.counter == Nobody && !s.sh.shutdown
    ensures Reachable(c, s') && s'.mgr.pc == M205 && s'.lock == Nobody && OnlyGrown(s, s'.(mgr := s.mgr))
    ensures s'.mgr.live == s.sh.live && s'.mgr.busy == s.sh.busy
    ensures 0 <= Births(c, s) && |s'.workers| == |s.workers| + Births(c, s)
  {
    hide Reachable;
    BirthFacts(c, s);
    s' := Snapshot(c, s);
    s' := Manages(c, s');
    if s'.mgr.pc == M186 {
      s' := Manages(c, s');
      s' := GrowAlone(c, s');
      BirthFacts(c, s');
    }
  }

  /** A signal wakes one sleeper, if there is one. */
  lemma SignalOne(ws: seq<Worker>) returns (pick: nat)
    ensures PickOk(ws, pick) && WorkersWoken(ws, Signal(ws, pick))
    ensures Count(Signal(ws, pick), Sleeping) == Max(0, Count(ws, Sleeping) - 1)
  {
    CountBound(ws, Sleeping);
    pick := 0;
    if Count(ws, Sleeping) > 0 {
      pick :| pick < |ws| && Sleeping(ws[pick]);
      CountUpdate(ws, pick, ws[pick].(pc := WWoken), Sleeping);
    }
  }

  lemma WokenTwice(ws: seq<Worker>, ws': seq<Worker>, ws'': seq<Worker>)
    requires WorkersWoken(ws, ws') && WorkersWoken(ws', ws'')
    ensures WorkersWoken(ws, ws'')
  {
  }

  /** The signals of lines 212 to 215: one sleeper each, as long as there are any. */
  lemma {:induction false} Signals(c: Config, s: State) returns (s': State)
    requires Reachable(c, s) && c.capacity >= 1 && s.mgr.pc == M212 && s.mgr.i <= c.vary
    ensures Reachable(c, s') && s'.mgr.pc == M170 && s' == s.(mgr := s'.mgr, workers := s'.workers)
    ensures WorkersWoken(s.workers, s'.workers)
    ensures Count(s'.workers, Sleeping) ==
      Max(0, Count(s.workers, Sleeping) - (c.vary - s.mgr.i))
    decreases c.vary - s.mgr.i
  {
    hide Reachable, Signal, Count;
    var pick := SignalOne(s.workers);
    s' := Do(c, s, Manage(pick));
    if s.mgr.i < c.vary {
      var next := s';
      s' := Signals(c, next);
      hide WorkersWoken;
      WokenTwice(s.workers, next.workers, s'.workers);
    }
  }

  /** Fewer than half busy and more than the minimum alive: somebody is to go. */
  predicate TooMany(c: Config, sh: Shared) { sh.busy * 2 < sh.live && sh.live > c.minThr }

  /** Lines 205 to 216, on the snapshot the manager has. */
  lemma OrderRound(c: Config, s: State) returns (s': State)
    requires Reachable(c, s) && c.capacity >= 1 && s.mgr.pc == M205 && s.lock == Nobody
    ensures var order := s.mgr.busy * 2 < s.mgr.live && s.mgr.live > c.minThr;
      && Reachable(c, s') && s'.mgr.pc == M170
      && s' == s.(workers := s'.workers, mgr := s'.mgr, sh := s'.sh)
      && s'.sh == s.sh.(waitExit := if order then c.vary else s.sh.waitExit)
      && WorkersWoken(s.workers, s'.workers)
      && Count(s'.workers, Sleeping) == Max(0, Count(s.workers, Sleeping) - if order then c.vary else 0)
  {
    hide Reachable, Count;
    s' := Manages(c, s);
    if s'.mgr.pc == M208 {
      s' := AskToLeave(c, s');
      s' := Signals(c, s');
    }
  }

  /** A round of the manager, left alone, in full, lines 170 to 216.  With a backlog of at least `minWait`
      and live_thr_num below its maximum it starts workers: `vary` of them, or as many as maximum and
      empty slots allow.  If there were too many alive when it looked, it raises wait_exit_thr_num to
      `vary` and wakes `vary` sleepers, or all there are.  It touches nothing else. */
  lemma ManagerRound(c: Config, s: State) returns (s': State)
    requires Reachable(c, s) && c.capacity >= 1 && s.mgr.pc == M170
    requires s.lock == Nobody && s.counter == Nobody && !s.sh.shutdown
    ensures Reachable(c, s') && s'.mgr.pc == M170
    ensures s' == s.(workers := s'.workers, mgr := s'.mgr, sh := s'.sh)
    ensures s'.sh == s.sh.(live := s.sh.live + Births(c, s), threads := s'.sh.threads,
                           waitExit := if TooMany(c, s.sh) then c.vary else s.sh.waitExit)
    ensures 0 <= Births(c, s) && |s'.workers| == |s.workers| + Births(c, s)
    ensures WorkersWoken(s.workers, s'.workers[..|s.workers|])
    ensures forall k :: |s.workers| <= k < |s'.workers| ==> s'.workers[k] == NEWCOMER
    ensures Count(s'.workers, Sleeping) ==
      Max(0, Count(s.workers, Sleeping) - if TooMany(c, s.sh) then c.vary else 0)
  {
    hide Reachable, Count, Births, Started, WorkersWoken;
    var grown := GrowthRound(c, s);
    StartedAwake(s.workers, grown.workers);
    s' := OrderRound(c, grown);
    StartedThenWoken(s.workers, grown.workers, s'.workers);
  }

  lemma StartedThenWoken(ws: seq<Worker>, ws': seq<Worker>, ws'': seq<Worker>)
    requires Started(ws, ws') && WorkersWoken(ws', ws'')
    ensures |ws| <= |ws'| == |ws''| && WorkersWoken(ws, ws''[..|ws|])
    ensures forall k :: |ws| <= k < |ws''| ==> ws''[k] == NEWCOMER
  {
  }

  lemma {:induction false} StartedAwake(ws: seq<Worker>, ws': seq<Worker>)
    requires Started(ws, ws')
    ensures Count(ws', Sleeping) == Count(ws, Sleeping)
    decreases |ws'|
  {
    if |ws'| == |ws| {
      assert ws' == ws;
    } else {
      var n := |ws'| - 1;
      assert ws'[..n][..|ws|] == ws;
      StartedAwake(ws, ws'[..n]);
    }
  }
}
