/**
  Task::handle of blockio/test.cc, run by any number of threads: a counter of tasks, tested
  without the mutex, tested again and claimed with it.  Each statement is a step; the
  unlocked read of `_x` is atomic.
*/
module TaskCounter {
  import opened Counting
  import opened Options

  /** The line a thread is about to run; line 18 is a test, a read and a decrement. */
  datatype Pc = L16 | L17 | L18 | L18Read | L18Dec | L19 | L20 | L24 | Done

  /** `stale` records that the thread has made a pass that found no task left. */
  datatype Thread = Thread(pc: Pc, taskId: int, stale: bool)

  /** `claims` logs who claimed which task and `lines` what line 24 prints and by whom. */
  datatype State = State(
    x: int, owner: Option<nat>, threads: seq<Thread>, claims: seq<(nat, int)>, lines: seq<(nat, int)>)

  function Init(n: nat, t: nat): State {
    State(n, None, seq(t, _ => Thread(L16, 0, false)), [], [])
  }

  predicate Enabled(s: State, i: nat) {
    && i < |s.threads| && s.threads[i].pc != Done
    && (s.threads[i].pc == L17 ==> s.owner == None)
  }

  function Put(s: State, i: nat, th: Thread): State
    requires i < |s.threads|
  {
    s.(threads := s.threads[i := th])
  }

  function Step(s: State, i: nat): State
    requires Enabled(s, i)
  {
    var th := s.threads[i];
    match th.pc
    case L16 => Put(s, i, th.(pc := if s.x > 0 then L17 else Done))
    case L17 => Put(s, i, th.(pc := L18)).(owner := Some(i))
    case L18 => Put(s, i, th.(pc := if s.x > 0 then L18Read else L19))
    case L18Read => Put(s, i, th.(pc := L18Dec, taskId := s.x))
    case L18Dec => Put(s, i, th.(pc := L20)).(x := s.x - 1, claims := s.claims + [(i, th.taskId)])
    case L19 => Put(s, i, th.(pc := L20, stale := true)).(x := 0)
    case L20 => Put(s, i, th.(pc := L24)).(owner := None)
    case L24 => Put(s, i, th.(pc := L16)).(lines := s.lines + [(i, th.taskId)])
    case Done => s
  }

  /** Where a schedule leads n tasks and t threads, if each of its moves is possible. */
  function After(n: nat, t: nat, schedule: seq<nat>): Option<State> {
    if schedule == [] then Some(Init(n, t))
    else
      var last := |schedule| - 1;
      match After(n, t, schedule[..last])
      case Some(p) => if Enabled(p, schedule[last]) then Some(Step(p, schedule[last])) else None
      case None => None
  }

  ghost predicate Reachable(n: nat, t: nat, s: State) {
    exists schedule :: After(n, t, schedule) == Some(s)
  }

  lemma AfterNothing(n: nat, t: nat)
    ensures After(n, t, []) == Some(Init(n, t))
  {
  }

  lemma AfterNext(n: nat, t: nat, schedule: seq<nat>, i: nat)
    requires After(n, t, schedule).Some? && Enabled(After(n, t, schedule).value, i)
    ensures After(n, t, schedule + [i]) == Some(Step(After(n, t, schedule).value, i))
  {
    assert (schedule + [i])[..|schedule|] == schedule;
  }

  // The counter and the mutex.

  predicate Inside(pc: Pc) { pc in {L18, L18Read, L18Dec, L19, L20} }

  predicate Resting(pc: Pc) { pc in {L20, L24, L16, Done} }

  predicate ThreadInv(x: int, owner: Option<nat>, i: nat, th: Thread) {
    && (Inside(th.pc) <==> owner == Some(i))
    && (th.pc in {L18Read, L18Dec} ==> x > 0)
    && (th.pc == L18Dec ==> th.taskId == x)
    && (th.pc == L19 || th.pc == Done ==> x == 0)
    && (th.stale ==> x == 0 && Resting(th.pc))
  }

  ghost predicate Inv(n: nat, t: nat, s: State) {
    && |s.threads| == t
    && 0 <= s.x <= n && |s.claims| == n - s.x
    && (s.owner.Some? ==> s.owner.value < t)
    && (forall i :: 0 <= i < t ==> ThreadInv(s.x, s.owner, i, s.threads[i]))
    && (forall k :: 0 <= k < |s.claims| ==> s.claims[k].0 < t && s.claims[k].1 == n - k)
  }

  lemma InvStep(n: nat, t: nat, s: State, i: nat)
    requires Inv(n, t, s) && Enabled(s, i)
    ensures Inv(n, t, Step(s, i))
  {
    var s' := Step(s, i);
    assert ThreadInv(s.x, s.owner, i, s.threads[i]);
    forall j | 0 <= j < t
      ensures ThreadInv(s'.x, s'.owner, j, s'.threads[j])
    {
      assert ThreadInv(s.x, s.owner, j, s.threads[j]);
    }
  }

  // Lines printed.

  /** A pass that has yet to print. */
  predicate Printing(th: Thread) { th.pc in {L20, L24} }

  predicate Stale(th: Thread) { th.stale }

  /** Claim k has been printed by its thread, or is about to be. */
  ghost predicate Told(s: State, k: nat)
    requires k < |s.claims| && s.claims[k].0 < |s.threads|
  {
    var th := s.threads[s.claims[k].0];
    s.claims[k] in s.lines || (Printing(th) && !th.stale && th.taskId == s.claims[k].1)
  }

  ghost predicate LineInv(n: nat, t: nat, s: State) {
    && Inv(n, t, s)
    && |s.lines| + Count(s.threads, Printing) == |s.claims| + Count(s.threads, Stale)
    && (s.x == 0 && s.claims != [] ==>
          var last := s.threads[s.claims[|s.claims| - 1].0];
          !last.stale && Resting(last.pc))
    && (forall k :: 0 <= k < |s.claims| ==> Told(s, k))
  }

  lemma CountsStep(n: nat, t: nat, s: State, i: nat)
    requires LineInv(n, t, s) && Enabled(s, i)
    ensures var s' := Step(s, i);
      |s'.lines| + Count(s'.threads, Printing) == |s'.claims| + Count(s'.threads, Stale)
  {
    assert ThreadInv(s.x, s.owner, i, s.threads[i]);
    var s' := Step(s, i);
    CountUpdate(s.threads, i, s'.threads[i], Printing);
    CountUpdate(s.threads, i, s'.threads[i], Stale);
  }

  lemma ToldStep(n: nat, t: nat, s: State, i: nat)
    requires LineInv(n, t, s) && Enabled(s, i)
    ensures var s' := Step(s, i);
      forall k :: 0 <= k < |s'.claims| ==> s'.claims[k].0 < |s'.threads| && Told(s', k)
  {
    var s' := Step(s, i);
    assert ThreadInv(s.x, s.owner, i, s.threads[i]);
    forall k | 0 <= k < |s'.claims|
      ensures s'.claims[k].0 < |s'.threads| && Told(s', k)
    {
      if k < |s.claims| {
        assert Told(s, k);
      }
    }
  }

  lemma LineStep(n: nat, t: nat, s: State, i: nat)
    requires LineInv(n, t, s) && Enabled(s, i)
    ensures LineInv(n, t, Step(s, i))
  {
    InvStep(n, t, s, i);
    CountsStep(n, t, s, i);
    ToldStep(n, t, s, i);
    assert ThreadInv(s.x, s.owner, i, s.threads[i]);
  }

  /** The task thread i has claimed last, or 0 if it has claimed none. */
  function LastClaim(claims: seq<(nat, int)>, i: nat): int {
    if claims == [] then 0
    else
      var last := claims[|claims| - 1];
      if last.0 == i then last.1 else LastClaim(claims[..|claims| - 1], i)
  }

  lemma LastClaimNext(claims: seq<(nat, int)>, claim: (nat, int), i: nat)
    ensures LastClaim(claims + [claim], i) == if claim.0 == i then claim.1 else LastClaim(claims, i)
  {
    assert (claims + [claim])[..|claims|] == claims;
  }

  /** LastClaim is what it says: claim k of thread i is its last, or k is -1 and it has none. */
  lemma {:induction false} LastClaimIs(claims: seq<(nat, int)>, i: nat, k: int)
    requires -1 <= k < |claims| && (k >= 0 ==> claims[k].0 == i)
    requires forall j :: k < j < |claims| ==> claims[j].0 != i
    ensures LastClaim(claims, i) == if k >= 0 then claims[k].1 else 0
  {
    var n := |claims| - 1;
    if k < n {
      LastClaimIs(claims[..n], i, k);
    }
  }

  /** What line k names is the task its thread had claimed last when it printed it: the latest of some
      number of its claims, or 0 before its first. */
  ghost predicate Honest(s: State, k: nat)
    requires k < |s.lines|
  {
    exists n: nat :: n <= |s.claims| && s.lines[k].1 == LastClaim(s.claims[..n], s.lines[k].0)
  }

  ghost predicate HonestInv(s: State) {
    && (forall i :: 0 <= i < |s.threads| && s.threads[i].pc != L18Dec ==>
          s.threads[i].taskId == LastClaim(s.claims, i))
    && (forall k :: 0 <= k < |s.lines| ==> Honest(s, k))
  }

  lemma HonestLines(s: State, s': State)
    requires forall k :: 0 <= k < |s.lines| ==> Honest(s, k)
    requires s.claims <= s'.claims && s.lines <= s'.lines
    requires forall k :: |s.lines| <= k < |s'.lines| ==> Honest(s', k)
    ensures forall k :: 0 <= k < |s'.lines| ==> Honest(s', k)
  {
    forall k | 0 <= k < |s.lines|
      ensures Honest(s', k)
    {
      assert Honest(s, k);
      var n: nat :| n <= |s.claims| && s.lines[k].1 == LastClaim(s.claims[..n], s.lines[k].0);
      assert s'.claims[..n] == s.claims[..n];
    }
  }

  lemma HonestStep(s: State, i: nat)
    requires HonestInv(s) && Enabled(s, i)
    requires s.threads[i].pc == L18Dec ==> s.threads[i].taskId == s.x
    ensures HonestInv(Step(s, i))
  {
    var s' := Step(s, i);
    var th := s.threads[i];
    if th.pc == L18Dec {
      forall j: nat { LastClaimNext(s.claims, (i, th.taskId), j); }
    }
    if th.pc == L24 {
      assert s'.claims[..|s'.claims|] == s.claims;
      assert Honest(s', |s.lines|);
    }
    HonestLines(s, s');
  }

  // Termination.

  /** Steps a thread has left before its pass ends, as the counter stands. */
  function Weight(th: Thread, tasksLeft: bool): nat {
    match th.pc
    case L20 => if tasksLeft then 12 else 3
    case L24 => if tasksLeft then 11 else 2
    case L16 => if tasksLeft then 10 else 1
    case L17 => 9
    case L18 => 8
    case L18Read => 7
    case L18Dec => 6
    case L19 => 5
    case Done => 0
  }

  function Work(threads: seq<Thread>, tasksLeft: bool): nat {
    if threads == [] then 0
    else Work(threads[..|threads| - 1], tasksLeft) + Weight(threads[|threads| - 1], tasksLeft)
  }

  lemma {:induction false} WorkUpdate(threads: seq<Thread>, i: nat, th: Thread, tasksLeft: bool)
    requires i < |threads|
    ensures Work(threads[i := th], tasksLeft) + Weight(threads[i], tasksLeft)
         == Work(threads, tasksLeft) + Weight(th, tasksLeft)
  {
    var last := |threads| - 1;
    if i == last {
      assert threads[i := th][..last] == threads[..last];
    } else {
      assert threads[i := th][..last] == threads[..last][i := th];
      WorkUpdate(threads[..last], i, th, tasksLeft);
    }
  }

  lemma {:induction false} WorkDrops(threads: seq<Thread>)
    ensures Work(threads, false) <= Work(threads, true)
  {
    if threads != [] {
      WorkDrops(threads[..|threads| - 1]);
    }
  }

  lemma {:induction false} WorkAtStart(t: nat, tasksLeft: bool)
    ensures Work(seq(t, _ => Thread(L16, 0, false)), tasksLeft) <= 10 * t
  {
    if t > 0 {
      assert seq(t, _ => Thread(L16, 0, false))[..t - 1] == seq(t - 1, _ => Thread(L16, 0, false));
      WorkAtStart(t - 1, tasksLeft);
    }
  }

  function Measure(s: State): int { 7 * s.x + Work(s.threads, s.x > 0) }

  lemma MeasureStep(n: nat, t: nat, s: State, i: nat)
    requires Inv(n, t, s) && Enabled(s, i)
    ensures Measure(Step(s, i)) < Measure(s)
  {
    var s' := Step(s, i);
    assert ThreadInv(s.x, s.owner, i, s.threads[i]);
    WorkUpdate(s.threads, i, s'.threads[i], s.x > 0);
    WorkDrops(s'.threads);
  }

  // Every run.

  /** Everything above, after so many steps. */
  ghost predicate Good(n: nat, t: nat, s: State, steps: nat) {
    LineInv(n, t, s) && HonestInv(s) && steps + Measure(s) <= 7 * n + 10 * t
  }

  lemma LineInit(n: nat, t: nat)
    ensures LineInv(n, t, Init(n, t)) && HonestInv(Init(n, t))
  {
    CountBound(Init(n, t).threads, Printing);
    CountBound(Init(n, t).threads, Stale);
  }

  lemma GoodInit(n: nat, t: nat)
    ensures Good(n, t, Init(n, t), 0)
  {
    hide LineInv, HonestInv, Work;
    LineInit(n, t);
    WorkAtStart(t, n > 0);
  }

  lemma GoodStep(n: nat, t: nat, s: State, i: nat, steps: nat)
    requires Good(n, t, s, steps) && Enabled(s, i)
    ensures Good(n, t, Step(s, i), steps + 1)
  {
    hide HonestInv;
    LineStep(n, t, s, i);
    HonestStep(s, i);
    MeasureStep(n, t, s, i);
  }

  lemma {:induction false} AfterGood(n: nat, t: nat, schedule: seq<nat>)
    requires After(n, t, schedule).Some?
    ensures Good(n, t, After(n, t, schedule).value, |schedule|)
  {
    hide Good;
    if schedule == [] {
      GoodInit(n, t);
    } else {
      var last := |schedule| - 1;
      AfterGood(n, t, schedule[..last]);
      GoodStep(n, t, After(n, t, schedule[..last]).value, schedule[last], last);
    }
  }

  lemma ReachableInv(n: nat, t: nat, s: State)
    requires Reachable(n, t, s)
    ensures Inv(n, t, s) && LineInv(n, t, s) && HonestInv(s)
  {
    var schedule :| After(n, t, schedule) == Some(s);
    AfterGood(n, t, schedule);
  }

  /** No schedule goes on for ever. */
  lemma RunsAreShort(n: nat, t: nat, schedule: seq<nat>)
    requires After(n, t, schedule).Some?
    ensures |schedule| <= 7 * n + 10 * t
  {
    AfterGood(n, t, schedule);
  }

  /** While a thread has not returned, some thread can move: the mutex blocks nobody for good. */
  lemma NoDeadlock(n: nat, t: nat, s: State)
    requires Reachable(n, t, s)
    ensures (forall i :: !Enabled(s, i)) <==> (forall i :: 0 <= i < t ==> |s.threads| == t && s.threads[i].pc == Done)
  {
    hide LineInv, HonestInv, Reachable;
    ReachableInv(n, t, s);
    if i :| 0 <= i < t && s.threads[i].pc != Done {
      assert ThreadInv(s.x, s.owner, i, s.threads[i]);
      if s.owner.Some? {
        assert ThreadInv(s.x, s.owner, s.owner.value, s.threads[s.owner.value]);
        assert Enabled(s, s.owner.value);
      } else {
        assert Enabled(s, i);
      }
    }
  }

  /** The counter never goes negative, and the k-th claim, whoever makes it, is of task n - k:
      no task is claimed twice and none out of turn. */
  lemma ClaimsAreInOrder(n: nat, t: nat, s: State)
    requires Reachable(n, t, s)
    ensures 0 <= s.x <= n && |s.claims| == n - s.x
    ensures forall k :: 0 <= k < |s.claims| ==> s.claims[k].0 < t && s.claims[k].1 == n - k
    ensures forall k :: 0 <= k < |s.lines| ==> Honest(s, k)
  {
    ReachableInv(n, t, s);
  }

  /** Line 24 prints the task its thread has claimed last, whether or not this pass claimed it, or 0. */
  lemma LineNamesLatestClaim(n: nat, t: nat, s: State, i: nat)
    requires Reachable(n, t, s) && i < |s.threads| && s.threads[i].pc == L24
    ensures Step(s, i).lines == s.lines + [(i, LastClaim(s.claims, i))]
  {
    ReachableInv(n, t, s);
  }

  lemma StaleBound(n: nat, t: nat, s: State)
    requires n >= 1 && t >= 1 && LineInv(n, t, s)
    ensures Count(s.threads, Stale) <= t - 1
  {
    CountBound(s.threads, Stale);
    if s.x > 0 {
      assert ThreadInv(s.x, s.owner, 0, s.threads[0]);
    } else {
      assert !Stale(s.threads[s.claims[|s.claims| - 1].0]);
    }
  }

  /** Exactly one claim is of task id, and the thread that made it has printed so. */
  ghost predicate DoneOnce(s: State, id: int) {
    exists k :: 0 <= k < |s.claims| && s.claims[k].1 == id && s.claims[k] in s.lines
      && forall j :: 0 <= j < |s.claims| && s.claims[j].1 == id ==> j == k
  }

  ghost predicate AllReturned(s: State) {
    forall i :: 0 <= i < |s.threads| ==> s.threads[i].pc == Done
  }

  /** When all threads have returned: every task 1 to n was claimed once and printed by the thread
      that claimed it, and at most one further line came from each thread but one. */
  lemma AllDone(n: nat, t: nat, s: State)
    requires n >= 1 && t >= 1 && Reachable(n, t, s)
    requires AllReturned(s)
    ensures s.x == 0 && |s.claims| == n
    ensures forall id: int :: 1 <= id <= n ==> DoneOnce(s, id)
    ensures n <= |s.lines| <= n + t - 1
  {
    ReachableInv(n, t, s);
    assert ThreadInv(s.x, s.owner, 0, s.threads[0]);
    CountBound(s.threads, Printing);
    StaleBound(n, t, s);
    forall id: int | 1 <= id <= n
      ensures DoneOnce(s, id)
    {
      assert s.claims[n - id].1 == id;
      assert Told(s, n - id);
    }
  }

  /** The overrun is bounded at every moment, not only at the end. */
  lemma OverrunBound(n: nat, t: nat, s: State)
    requires n >= 1 && t >= 1 && Reachable(n, t, s)
    ensures |s.lines| <= (n - s.x) + t - 1
    ensures s.x > 0 ==> |s.lines| <= n - s.x
  {
    ReachableInv(n, t, s);
    StaleBound(n, t, s);
    CountBound(s.threads, Stale);
    if s.x > 0 {
      forall i | 0 <= i < t
        ensures !Stale(s.threads[i])
      {
        assert ThreadInv(s.x, s.owner, i, s.threads[i]);
      }
    }
  }

  // How many lines there can be, exactly.

  lemma Do(n: nat, t: nat, s: State, i: nat) returns (s': State)
    requires Reachable(n, t, s) && Enabled(s, i)
    ensures Reachable(n, t, s') && s' == Step(s, i)
  {
    var schedule :| After(n, t, schedule) == Some(s);
    AfterNext(n, t, schedule, i);
    s' := Step(s, i);
  }

  /** A thread moves from pc to pc', and the others do not. */
  ghost predicate Moved(s: State, s': State, i: nat, pc: Pc) {
    && i < |s.threads| == |s'.threads| && s'.threads[i].pc == pc
    && forall k :: 0 <= k < |s.threads| && k != i ==> s'.threads[k] == s.threads[k]
  }

  /** Lines 17 and 18 for a thread that finds a task, lines 20 and 24 too. */
  lemma Claim(n: nat, t: nat, s: State, i: nat) returns (s': State)
    requires Reachable(n, t, s) && i < |s.threads| && s.threads[i].pc == L17
    requires s.owner == None && s.x > 0
    ensures Reachable(n, t, s') && Moved(s, s', i, L16)
    ensures s'.owner == None && s'.x == s.x - 1 && |s'.lines| == |s.lines| + 1
  {
    hide Reachable;
    s' := Do(n, t, s, i);
    s' := Do(n, t, s', i);
    s' := Do(n, t, s', i);
    s' := Do(n, t, s', i);
    s' := Do(n, t, s', i);
    s' := Do(n, t, s', i);
  }

  /** The same for a thread that finds none: it prints nevertheless. */
  lemma StalePass(n: nat, t: nat, s: State, i: nat) returns (s': State)
    requires Reachable(n, t, s) && i < |s.threads| && s.threads[i].pc == L17
    requires s.owner == None && s.x == 0
    ensures Reachable(n, t, s') && Moved(s, s', i, L16)
    ensures s'.owner == None && s'.x == 0 && |s'.lines| == |s.lines| + 1
  {
    hide Reachable;
    s' := Do(n, t, s, i);
    s' := Do(n, t, s', i);
    s' := Do(n, t, s', i);
    s' := Do(n, t, s', i);
    s' := Do(n, t, s', i);
  }

  /** Threads up to k stand at line 17, past the unlocked test, and the others at line 16. */
  ghost predicate Split(t: nat, s: State, k: nat) {
    && |s.threads| == t && s.owner == None
    && forall i :: 0 <= i < t ==> s.threads[i].pc == if i < k then L17 else L16
  }

  /** One thread works until a single task is left. */
  lemma {:induction false} ClaimAllButOne(n: nat, t: nat, s: State) returns (s': State)
    requires t >= 1 && Reachable(n, t, s) && Split(t, s, 0) && s.x >= 1
    ensures Reachable(n, t, s') && Split(t, s', 0) && s'.x == 1 && |s'.lines| == |s.lines| + s.x - 1
    decreases s.x
  {
    hide Reachable;
    s' := s;
    if s.x > 1 {
      s' := Do(n, t, s', 0);
      s' := Claim(n, t, s', 0);
      s' := ClaimAllButOne(n, t, s');
    }
  }

  /** Threads k to m - 1 see that a task is left. */
  lemma {:induction false} PassTest(n: nat, t: nat, s: State, k: nat, m: nat) returns (s': State)
    requires Reachable(n, t, s) && Split(t, s, k) && k <= m <= t && s.x > 0
    ensures Reachable(n, t, s') && Split(t, s', m) && s'.x == s.x && s'.lines == s.lines
    decreases m - k
  {
    hide Reachable;
    s' := s;
    if k < m {
      s' := Do(n, t, s, k);
      s' := PassTest(n, t, s', k + 1, m);
    }
  }

  /** With no task left, the threads before k that passed the test make their stale passes. */
  lemma {:induction false} StalePasses(n: nat, t: nat, s: State, k: nat) returns (s': State)
    requires Reachable(n, t, s) && Split(t, s, k) && k <= t && s.x == 0
    ensures Reachable(n, t, s') && Split(t, s', 0) && s'.x == 0 && |s'.lines| == |s.lines| + k
    decreases k
  {
    hide Reachable;
    s' := s;
    if k > 0 {
      s' := StalePass(n, t, s, k - 1);
      s' := StalePasses(n, t, s', k - 1);
    }
  }

  /** With no task left, threads at line 16 return. */
  lemma {:induction false} ReturnFrom(n: nat, t: nat, s: State, k: nat) returns (s': State)
    requires Reachable(n, t, s) && |s.threads| == t && k <= t && s.x == 0
    requires forall i :: 0 <= i < t ==> s.threads[i].pc == if i < k then Done else L16
    ensures Reachable(n, t, s') && AllReturned(s') && s'.lines == s.lines
    decreases t - k
  {
    hide Reachable;
    s' := s;
    if k < t {
      s' := Do(n, t, s, k);
      s' := ReturnFrom(n, t, s', k + 1);
    }
  }

  /** A finished run with `extra` stale lines: that many threads and the one that claims the last task
      pass the unlocked test while it is still there. */
  lemma Overrun(n: nat, t: nat, extra: nat) returns (s: State)
    requires n >= 1 && extra < t
    ensures Reachable(n, t, s) && AllReturned(s) && |s.lines| == n + extra
  {
    AfterNothing(n, t);
    assert Reachable(n, t, Init(n, t));
    hide Reachable;
    s := ClaimAllButOne(n, t, Init(n, t));
    s := PassTest(n, t, s, 0, extra + 1);
    s := Claim(n, t, s, extra);
    s := StalePasses(n, t, s, extra);
    s := ReturnFrom(n, t, s, 0);
  }

  /** Runs to the end print exactly the numbers of lines from n to n + t - 1. */
  lemma LinesExactly(n: nat, t: nat, m: nat)
    requires n >= 1 && t >= 1
    ensures n <= m <= n + t - 1 <==> exists s :: Reachable(n, t, s) && AllReturned(s) && |s.lines| == m
  {
    hide Reachable;
    if n <= m <= n + t - 1 {
      var s := Overrun(n, t, m - n);
    }
    forall s | Reachable(n, t, s) && AllReturned(s)
      ensures n <= |s.lines| <= n + t - 1
    {
      AllDone(n, t, s);
    }
  }

  /** A line for a task that is not there can be printed if and only if there are two threads. */
  lemma StaleLineIffTwoThreads(n: nat, t: nat)
    requires n >= 1 && t >= 1
    ensures t >= 2 <==> exists s :: Reachable(n, t, s) && |s.lines| > n
  {
    hide Reachable;
    if t >= 2 {
      var s := Overrun(n, t, 1);
    }
    forall s | Reachable(n, t, s)
      ensures |s.lines| <= n + t - 1
    {
      OverrunBound(n, t, s);
      ClaimsAreInOrder(n, t, s);
    }
  }

  // The same statements in place.

  /** The object the threads share, with where each thread is. */
  class Task {
    var x: int
    var owner: Option<nat>
    var threads: seq<Thread>
    var lines: seq<(nat, int)>
    ghost var claims: seq<(nat, int)>

    ghost function View(): State
      reads this
    {
      State(x, owner, threads, claims, lines)
    }

    constructor (n: nat, t: nat)
      ensures View() == Init(n, t)
    {
      x, owner, claims, lines := n, None, [], [];
      threads := seq(t, _ => Thread(L16, 0, false));
    }

    /** Thread i runs its next statement. */
    method Move(i: nat)
      requires Enabled(View(), i)
      modifies this
      ensures View() == Step(old(View()), i)
      ensures |threads| == old(|threads|) && forall k :: 0 <= k < |threads| && k != i ==> threads[k] == old(threads)[k]
      ensures x != old(x) || claims != old(claims) ==> old(threads)[i].pc in {L18Dec, L19}
      ensures owner == Some(i) && old(owner) != Some(i) ==> old(owner) == None
      ensures owner != old(owner) ==> old(threads)[i].pc in {L17, L20}
    {
      var th := threads[i];
      var next := th.pc;
      match th.pc {
        case L16 => next := if x > 0 then L17 else Done;
        case L17 => owner, next := Some(i), L18;
        case L18 => next := if x > 0 then L18Read else L19;
        case L18Read => th, next := th.(taskId := x), L18Dec;
        case L18Dec =>
          x, next := x - 1, L20;
          claims := claims + [(i, th.taskId)];
        case L19 => x, th, next := 0, th.(stale := true), L20;
        case L20 => owner, next := None, L24;
        case L24 => lines, next := lines + [(i, th.taskId)], L16;
        case Done =>
      }
      threads := threads[i := th.(pc := next)];
    }

    /** All the threads, under any schedule: the moves that are possible are made. */
    method Run(schedule: seq<nat>, ghost n: nat) returns (ghost made: seq<nat>)
      requires n >= 1 && |threads| >= 1 && View() == Init(n, |threads|)
      modifies this
      ensures |threads| == old(|threads|) && After(n, |threads|, made) == Some(View())
      ensures |lines| <= n + |threads| - 1 && 0 <= x <= n
    {
      hide After, Step;
      made := [];
      assert After(n, |threads|, made) == Some(View()) by {
        AfterNothing(n, |threads|);
      }
      for k := 0 to |schedule|
        invariant |threads| == old(|threads|) && After(n, |threads|, made) == Some(View())
      {
        var i := schedule[k];
        if i < |threads| && threads[i].pc != Done && (threads[i].pc != L17 || owner == None) {
          AfterNext(n, |threads|, made, i);
          Move(i);
          made := made + [i];
        }
      }
      OverrunBound(n, |threads|, View());
      ClaimsAreInOrder(n, |threads|, View());
    }
  }
}
