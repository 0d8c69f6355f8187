/** The table and the interest set agree; a batch stays fresh while it is dispatched. */
module ReactorTheorems {
  import opened Options
  import opened ReactorMachine

  /** A client slot in use pairs EPOLLIN with recvdata, or EPOLLOUT with senddata. */
  predicate ClientSlot(ev: Slot) {
    (ev.events == {In} && ev.callback == RecvData) || (ev.events == {Out} && ev.callback == SendData && ev.len == 0)
  }

  predicate ListenerSlot(ev: Slot) {
    ev.events == {In} && ev.callback == AcceptConn
  }

  /** A slot in use and the kernel agree about it. */
  predicate Registered(k: Kernel, ev: Slot, i: nat) {
    && ev.status == 1 && ev.arg == i && ev.fd in k.open
    && ev.fd in k.interest && k.interest[ev.fd] == Registration(i, ev.events)
  }

  ghost predicate SlotOk(s: State, i: nat)
    requires i < |s.slots|
  {
    var ev := s.slots[i];
    if i == |s.slots| - 1 then Registered(s.kernel, ev, i) && ListenerSlot(ev)
    else ev.status == 0 || (Registered(s.kernel, ev, i) && ClientSlot(ev))
  }

  /** The interest set is exactly the descriptors of the slots with status 1. */
  ghost predicate Inv(s: State) {
    && s.slots != []
    && (forall i :: 0 <= i < |s.slots| ==> SlotOk(s, i))
    && (forall fd :: fd in s.kernel.interest ==>
          var p := s.kernel.interest[fd].ptr; p < |s.slots| && s.slots[p].status == 1 && s.slots[p].fd == fd)
  }

  lemma StartInv(max: nat, fd: int, open: set<int>)
    ensures Inv(Start(max, fd, open))
  {
  }

  /** What one handler may do to the slots it was not called for. */
  ghost predicate OthersKept(s: State, s': State, p: nat) {
    && |s'.slots| == |s.slots|
    && forall q :: 0 <= q < |s.slots| && q != p && s.slots[q].status == 1 ==> s'.slots[q] == s.slots[q]
  }

  lemma ClientCallKeeps(s: State, p: nat, a: Answer)
    requires Inv(s) && p < |s.slots| - 1 && s.slots[p].status == 1
    ensures SlotOk(s, p) && Inv(Call(s, p, a)) && OthersKept(s, Call(s, p, a), p)
  {
    assert SlotOk(s, p);
    var s' := Call(s, p, a);
    forall i | 0 <= i < |s'.slots|
      ensures SlotOk(s', i)
    {
      assert SlotOk(s, i);
    }
  }

  lemma WatchedIsOpen(s: State, fd: int)
    requires Inv(s) && fd in s.kernel.interest
    ensures fd in s.kernel.open
  {
    assert SlotOk(s, s.kernel.interest[fd].ptr);
  }

  lemma AcceptKeeps(s: State, a: Answer)
    requires Inv(s) && AnswerOk(s.kernel, a)
    ensures Inv(Accept(s, a)) && OthersKept(s, Accept(s, a), |s.slots| - 1)
    ensures Accept(s, a).slots[|s.slots| - 1] == s.slots[|s.slots| - 1]
  {
    var s' := Accept(s, a);
    assert SlotOk(s, |s.slots| - 1);
    if a.accepted in s.kernel.interest {
      WatchedIsOpen(s, a.accepted);
    }
    forall i | 0 <= i < |s'.slots|
      ensures SlotOk(s', i)
    {
      assert SlotOk(s, i);
    }
  }

  /** Any callback of a slot in use keeps the agreement and every other slot in use. */
  lemma CallKeeps(s: State, p: nat, a: Answer)
    requires Inv(s) && p < |s.slots| && s.slots[p].status == 1 && AnswerOk(s.kernel, a)
    ensures SlotOk(s, p) && s.slots[p].callback != NoCallback
    ensures Inv(Call(s, p, a)) && OthersKept(s, Call(s, p, a), p)
  {
    assert SlotOk(s, p);
    if p < |s.slots| - 1 {
      ClientCallKeeps(s, p, a);
    } else {
      AcceptKeeps(s, a);
    }
  }

  // What a callback does, in full.

  /** Slot p watches the same descriptor for another event, and everything else is as it was. */
  ghost predicate Rearmed(s: State, s': State, p: nat, callback: Callback, bit: Bit)
    requires p < |s.slots|
  {
    var fd := s.slots[p].fd;
    && s'.slots == s.slots[p := Slot(fd, {bit}, callback, p, 1, 0)]
    && s'.kernel.open == s.kernel.open
    && s'.kernel.interest == s.kernel.interest[fd := Registration(p, {bit})]
  }

  /** Slot p is out of use and its descriptor closed, and everything else is as it was. */
  ghost predicate Dropped(s: State, s': State, p: nat)
    requires p < |s.slots|
  {
    var fd := s.slots[p].fd;
    && s'.slots == s.slots[p := s.slots[p].(status := 0)]
    && s'.kernel.open == s.kernel.open - {fd}
    && s'.kernel.interest == s.kernel.interest - {fd}
  }

  /** Slot k is the lowest free one but the last. */
  ghost predicate LowestFree(slots: seq<Slot>, k: nat) {
    k < |slots| - 1 && slots[k].status == 0 && forall j :: 0 <= j < k ==> slots[j].status != 0
  }

  /** A client let in gets slot k, watched for EPOLLIN with recvdata. */
  ghost predicate LetIn(s: State, s': State, k: nat, fd: int)
    requires k < |s.slots|
  {
    && s'.slots == s.slots[k := Slot(fd, {In}, RecvData, k, 1, 0)]
    && s'.kernel.open == s.kernel.open + {fd}
    && s'.kernel.interest == s.kernel.interest[fd := Registration(k, {In})]
  }

  /** A client turned away leaves its descriptor open and nothing else. */
  ghost predicate TurnedAway(s: State, s': State, a: Answer) {
    && s'.slots == s.slots && s'.kernel.interest == s.kernel.interest
    && s'.kernel.open == s.kernel.open + if a.accepted >= 0 then {a.accepted} else {}
  }

  ghost predicate Accepted(s: State, s': State, a: Answer) {
    && (forall k: nat :: LowestFree(s.slots, k) && a.accepted >= 0 && a.nonblocking ==> LetIn(s, s', k, a.accepted))
    && ((forall k: nat :: !LowestFree(s.slots, k)) || a.accepted < 0 || !a.nonblocking ==> TurnedAway(s, s', a))
  }

  /** What the callback of slot p makes of s, given the kernel's answers. */
  ghost predicate Effect(s: State, s': State, p: nat, a: Answer)
    requires p < |s.slots|
  {
    match s.slots[p].callback
    case AcceptConn => Accepted(s, s', a)
    case RecvData => if a.received > 0 then Rearmed(s, s', p, SendData, Out) else Dropped(s, s', p)
    case SendData => if a.sent > 0 then Rearmed(s, s', p, RecvData, In) else Dropped(s, s', p)
    case NoCallback => false
  }

  lemma ClientEffect(s: State, p: nat, a: Answer)
    requires Inv(s) && p < |s.slots| - 1 && s.slots[p].status == 1
    ensures Effect(s, Call(s, p, a), p, a)
  {
    assert SlotOk(s, p);
  }

  lemma AcceptEffect(s: State, a: Answer)
    requires s.slots != []
    ensures (if a.accepted >= 0 then a.accepted !in s.kernel.interest else !a.nonblocking) ==>
      Accepted(s, Accept(s, a), a)
  {
    var i := FirstFree(s.slots, |s.slots| - 1);
    assert i < |s.slots| - 1 ==> LowestFree(s.slots, i);
    assert forall k: nat :: LowestFree(s.slots, k) ==> k == i;
  }

  lemma AcceptedIsNew(s: State, a: Answer)
    requires Inv(s) && AnswerOk(s.kernel, a)
    ensures a.accepted >= 0 ==> a.accepted !in s.kernel.interest
  {
    if a.accepted in s.kernel.interest {
      WatchedIsOpen(s, a.accepted);
    }
  }

  lemma CallEffect(s: State, p: nat, a: Answer)
    requires Inv(s) && p < |s.slots| && s.slots[p].status == 1 && AnswerOk(s.kernel, a)
    ensures Effect(s, Call(s, p, a), p, a)
  {
    assert SlotOk(s, p);
    if p < |s.slots| - 1 {
      ClientEffect(s, p, a);
    } else {
      AcceptedIsNew(s, a);
      AcceptEffect(s, a);
    }
  }

  /** Dispatching a fresh event runs at most one callback, the one the slot was registered with, and
      that exactly when the event carries what the slot asked for; the state is then what that callback
      makes of it. */
  lemma DispatchOnce(s: State, e: Ready, a: Answer, b: Answer)
    requires Inv(s) && e.ptr < |s.slots| && s.slots[e.ptr].status == 1
    requires e.revents <= s.slots[e.ptr].events + {Err, Hup}
    requires AnswerOk(s.kernel, a) && AnswerOk(s.kernel, b)
    ensures var (s', ran) := Dispatch(s, e, a, b);
      && ran == (if e.revents * {In, Out} != {} then [s.slots[e.ptr].callback] else [])
      && NoCallback !in ran
      && Inv(s') && OthersKept(s, s', e.ptr)
      && (ran == [] ==> s' == s)
      && (ran != [] ==> Effect(s, s', e.ptr, if In in e.revents then a else b))
  {
    assert SlotOk(s, e.ptr);
    CallKeeps(s, e.ptr, a);
    CallKeeps(s, e.ptr, b);
    CallEffect(s, e.ptr, a);
    CallEffect(s, e.ptr, b);
    hide Effect, Call, Inv, OthersKept;
    var ev := s.slots[e.ptr];
    assert e.revents * {In, Out} <= ev.events;
    if In in e.revents {
      assert In in e.revents * {In, Out};
    } else if Out in e.revents {
      assert Out in e.revents * {In, Out};
    } else {
      assert e.revents * {In, Out} == {};
    }
  }

  /** Event n of a batch, when its turn comes, still points to the slot epoll_wait saw: in use, with
      the same descriptor, events and callback, whatever the handlers before it freed or reused. */
  lemma {:induction false} BatchStaysFresh(s: State, batch: seq<Ready>, answers: seq<Answers>, n: nat)
    requires Inv(s) && |answers| == |batch| && n <= |batch|
    requires BatchOk(s.kernel, batch) && AnswersOk(s, batch, answers)
    ensures var now := DispatchAll(s, batch[..n], answers[..n]);
      && Inv(now) && |now.slots| == |s.slots|
      && forall m :: n <= m < |batch| ==>
           var p := batch[m].ptr;
           p < |s.slots| && now.slots[p] == s.slots[p] && s.slots[p].status == 1 && s.slots[p].fd == batch[m].fd
  {
    if n > 0 {
      var b, r := batch[..n], answers[..n];
      BatchStaysFresh(s, batch, answers, n - 1);
      assert b[..n - 1] == batch[..n - 1] && r[..n - 1] == answers[..n - 1];
      var before := DispatchAll(s, batch[..n - 1], answers[..n - 1]);
      var e := batch[n - 1];
      EventIsFresh(s, batch, n - 1);
      assert AnswerOk(before.kernel, answers[n - 1].0) && AnswerOk(before.kernel, answers[n - 1].1);
      DispatchOnce(before, e, answers[n - 1].0, answers[n - 1].1);
      forall m | n <= m < |batch|
        ensures batch[m].ptr != e.ptr
      {
        EventIsFresh(s, batch, m);
      }
    }
  }

  /** What epoll_wait reports is what the table says. */
  lemma EventIsFresh(s: State, batch: seq<Ready>, m: nat)
    requires Inv(s) && BatchOk(s.kernel, batch) && m < |batch|
    ensures var e := batch[m];
      && e.ptr < |s.slots| && s.slots[e.ptr].status == 1 && s.slots[e.ptr].fd == e.fd
      && e.revents <= s.slots[e.ptr].events + {Err, Hup}
  {
    assert SlotOk(s, batch[m].ptr);
  }

  /** Each event of a batch runs at most one callback: the one its slot had when epoll_wait returned. */
  lemma OneCallbackPerEvent(s: State, batch: seq<Ready>, answers: seq<Answers>, n: nat)
    requires Inv(s) && |answers| == |batch| && n < |batch|
    requires BatchOk(s.kernel, batch) && AnswersOk(s, batch, answers)
    ensures var now := DispatchAll(s, batch[..n], answers[..n]);
      var e := batch[n];
      e.ptr < |s.slots| &&
      Dispatch(now, e, answers[n].0, answers[n].1).1
        == if e.revents * {In, Out} != {} then [s.slots[e.ptr].callback] else []
  {
    BatchStaysFresh(s, batch, answers, n);
    EventIsFresh(s, batch, n);
    var now := DispatchAll(s, batch[..n], answers[..n]);
    assert AnswerOk(now.kernel, answers[n].0) && AnswerOk(now.kernel, answers[n].1);
    DispatchOnce(now, batch[n], answers[n].0, answers[n].1);
  }

  /** Event n of a batch: the state before and after it differ by what the callback its slot had when
      epoll_wait returned does, if it carries what the slot asked for, and not at all otherwise. */
  lemma EventEffect(s: State, batch: seq<Ready>, answers: seq<Answers>, n: nat)
    requires Inv(s) && |answers| == |batch| && n < |batch|
    requires BatchOk(s.kernel, batch) && AnswersOk(s, batch, answers)
    ensures var now, then' := DispatchAll(s, batch[..n], answers[..n]), DispatchAll(s, batch[..n + 1], answers[..n + 1]);
      var e := batch[n];
      && e.ptr < |s.slots| == |now.slots| && now.slots[e.ptr] == s.slots[e.ptr]
      && if e.revents * {In, Out} == {} then then' == now
         else Effect(now, then', e.ptr, if In in e.revents then answers[n].0 else answers[n].1)
  {
    BatchStaysFresh(s, batch, answers, n);
    EventIsFresh(s, batch, n);
    DispatchNext(s, batch, answers, n);
    var now := DispatchAll(s, batch[..n], answers[..n]);
    assert AnswerOk(now.kernel, answers[n].0) && AnswerOk(now.kernel, answers[n].1);
    DispatchOnce(now, batch[n], answers[n].0, answers[n].1);
  }

  lemma DispatchNext(s: State, batch: seq<Ready>, answers: seq<Answers>, n: nat)
    requires |answers| == |batch| && n < |batch|
    ensures DispatchAll(s, batch[..n + 1], answers[..n + 1])
         == Dispatch(DispatchAll(s, batch[..n], answers[..n]), batch[n], answers[n].0, answers[n].1).0
  {
    assert batch[..n + 1][..n] == batch[..n] && answers[..n + 1][..n] == answers[..n];
  }

  lemma DispatchEnds(s: State, batch: seq<Ready>, answers: seq<Answers>)
    requires |answers| == |batch|
    ensures DispatchAll(s, batch[..0], answers[..0]) == s
    ensures DispatchAll(s, batch[..|batch|], answers[..|batch|]) == DispatchAll(s, batch, answers)
  {
    assert batch[..|batch|] == batch && answers[..|batch|] == answers;
  }

  // Whole runs.

  /** One return from epoll_wait; an error is an empty batch. */
  datatype Wait = Wait(batch: seq<Ready>, answers: seq<Answers>)

  ghost predicate WaitOk(s: State, w: Wait) {
    |w.answers| == |w.batch| && BatchOk(s.kernel, w.batch) && AnswersOk(s, w.batch, w.answers)
  }

  /** The state after a series of waits, if the kernel kept its side in each. */
  ghost function After(max: nat, fd: int, open: set<int>, ws: seq<Wait>): Option<State> {
    if ws == [] then Some(Start(max, fd, open))
    else
      var w := ws[|ws| - 1];
      match After(max, fd, open, ws[..|ws| - 1])
      case Some(p) => if WaitOk(p, w) then Some(DispatchAll(p, w.batch, w.answers)) else None
      case None => None
  }

  lemma {:induction false} AfterInv(max: nat, fd: int, open: set<int>, ws: seq<Wait>)
    requires After(max, fd, open, ws).Some?
    ensures Inv(After(max, fd, open, ws).value) && |After(max, fd, open, ws).value.slots| == max + 1
  {
    if ws == [] {
      StartInv(max, fd, open);
    } else {
      var w := ws[|ws| - 1];
      AfterInv(max, fd, open, ws[..|ws| - 1]);
      BatchStaysFresh(After(max, fd, open, ws[..|ws| - 1]).value, w.batch, w.answers, |w.batch|);
      assert w.batch[..|w.batch|] == w.batch && w.answers[..|w.batch|] == w.answers;
    }
  }

  /** In use: the listener's slot, or a client's. */
  predicate InUse(s: State, i: nat) { i < |s.slots| && s.slots[i].status == 1 }

  /** Between batches: the kernel watches exactly the descriptors of the slots in use; those are open
      and pairwise distinct; the last slot is the listener's and nobody else's; every client slot in
      use pairs its events with its handler. */
  lemma InterestSetAgrees(max: nat, fd: int, open: set<int>, ws: seq<Wait>, s: State)
    requires After(max, fd, open, ws) == Some(s)
    ensures forall d :: d in s.kernel.interest <==> exists i: nat :: InUse(s, i) && s.slots[i].fd == d
    ensures forall i: nat :: InUse(s, i) ==> s.slots[i].fd in s.kernel.open
    ensures forall i: nat, j: nat :: InUse(s, i) && InUse(s, j) && s.slots[i].fd == s.slots[j].fd ==> i == j
    ensures InUse(s, max) && ListenerSlot(s.slots[max])
    ensures forall i: nat :: InUse(s, i) && i < max ==> ClientSlot(s.slots[i])
  {
    AfterInv(max, fd, open, ws);
    forall i: nat | InUse(s, i)
      ensures Registered(s.kernel, s.slots[i], i) && (i < max ==> ClientSlot(s.slots[i]))
    {
      assert SlotOk(s, i);
    }
    assert SlotOk(s, max);
    forall d | d in s.kernel.interest
      ensures exists i: nat :: InUse(s, i) && s.slots[i].fd == d
    {
      assert InUse(s, s.kernel.interest[d].ptr);
    }
  }

  /** eventset has cleared `len` before senddata runs, so as long as send moves no more bytes than it
      is asked to, senddata always ends the connection: no client is ever sent a byte. */
  lemma SendAlwaysCloses(s: State, p: nat, a: Answer)
    requires Inv(s) && InUse(s, p) && s.slots[p].callback == SendData
    requires a.sent <= s.slots[p].len
    ensures a.sent <= 0
    ensures var s' := Call(s, p, a);
      s'.slots[p].status == 0 && s.slots[p].fd !in s'.kernel.open && s.slots[p].fd !in s'.kernel.interest
  {
    assert SlotOk(s, p);
  }
}
