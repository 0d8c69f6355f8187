/** The functions of epoll_et/server3.c in place on the table of events. */
module ReactorCode {
  import opened ReactorMachine
  import opened ReactorTheorems

  class Reactor {
    const events: array<Slot>    // g_events
    var kernel: Kernel

    ghost function View(): State
      reads this, events
    {
      State(events[..], kernel)
    }

    /** main up to its loop, with initlistensocket. */
    constructor (max: nat, fd: int, open: set<int>)
      ensures View() == Start(max, fd, open) && fresh(events)
      ensures events.Length == max + 1 && events[max] == Slot(fd, {In}, AcceptConn, max, 1, 0)
      ensures forall k :: 0 <= k < max ==> events[k].status == 0
      ensures kernel == Kernel(open + {fd}, map[fd := Registration(max, {In})])
    {
      events := new Slot[max + 1](_ => ZERO_SLOT);
      kernel := Kernel(open + {fd}, map[]);
      new;
      assert events[..] == seq(max + 1, _ => ZERO_SLOT);
      SetEvent(max, fd, AcceptConn);
      AddEvent(max, {In});
    }

    /** eventset */
    method SetEvent(i: nat, fd: int, callback: Callback)
      requires i < events.Length
      modifies events
      ensures View() == EventSet(old(View()), i, fd, callback)
      ensures events[i] == Slot(fd, {}, callback, i, 0, 0)
      ensures forall k :: 0 <= k < events.Length && k != i ==> events[k] == old(events[k])
    {
      var ev := events[i];
      ev := ev.(fd := fd, callback := callback);
      ev := ev.(events := {}, arg := i);
      ev := ev.(status := 0, len := 0);
      events[i] := ev;
    }

    /** eventadd; every call reaches it with status 0. */
    method AddEvent(i: nat, bits: set<Bit>)
      requires i < events.Length && events[i].status == 0
      modifies this`kernel, events
      ensures View() == EventAdd(old(View()), i, bits)
      ensures events[i].status == 1 && events[i].events == bits && events[i].fd == old(events[i]).fd
      ensures old(events[i]).fd in kernel.open && old(events[i]).fd !in old(kernel).interest ==>
        events[i].fd in kernel.interest && kernel.interest[events[i].fd] == Registration(i, bits)
      ensures forall k :: 0 <= k < events.Length && k != i ==> events[k] == old(events[k])
    {
      events[i] := events[i].(events := bits);
      events[i] := events[i].(status := 1);
      kernel := CtlAdd(kernel, events[i].fd, Registration(i, bits));
    }

    /** eventdel */
    method DelEvent(i: nat)
      requires i < events.Length
      modifies this`kernel, events
      ensures View() == EventDel(old(View()), i)
      ensures events[i].status != 1 && kernel.open == old(kernel).open
      ensures old(events[i]).status == 1 ==> events[i].fd !in kernel.interest
      ensures forall k :: 0 <= k < events.Length && k != i ==> events[k] == old(events[k])
    {
      if events[i].status != 1 {
        return;
      }
      events[i] := events[i].(status := 0);
      kernel := CtlDel(kernel, events[i].fd);
    }

    /** recvdata */
    method OnReceive(fd: int, arg: nat, a: Answer)
      requires arg < events.Length
      modifies this`kernel, events
      ensures View() == Receive(old(View()), fd, arg, a)
      ensures a.received > 0 ==>
        events[arg].status == 1 && events[arg].fd == fd && events[arg].events == {Out} && events[arg].callback == SendData
      ensures a.received <= 0 ==>
        events[arg].status != 1 && events[arg].fd !in kernel.open && events[arg].fd !in kernel.interest
      ensures forall k :: 0 <= k < events.Length && k != arg ==> events[k] == old(events[k])
    {
      DelEvent(arg);
      if a.received > 0 {
        SetEvent(arg, fd, SendData);
        AddEvent(arg, {Out});
      } else {
        kernel := Close(kernel, events[arg].fd);
      }
    }

    /** senddata */
    method OnSend(fd: int, arg: nat, a: Answer)
      requires arg < events.Length
      modifies this`kernel, events
      ensures View() == Send(old(View()), fd, arg, a)
      ensures a.sent > 0 ==>
        events[arg].status == 1 && events[arg].fd == fd && events[arg].events == {In} && events[arg].callback == RecvData
      ensures a.sent <= 0 ==>
        events[arg].status != 1 && events[arg].fd !in kernel.open && events[arg].fd !in kernel.interest
      ensures forall k :: 0 <= k < events.Length && k != arg ==> events[k] == old(events[k])
    {
      DelEvent(arg);
      if a.sent > 0 {
        SetEvent(arg, fd, RecvData);
        AddEvent(arg, {In});
      } else {
        kernel := Close(kernel, events[arg].fd);
      }
    }

    /** acceptconn */
    method OnAccept(a: Answer)
      requires events.Length >= 1
      modifies this`kernel, events
      ensures View() == Accept(old(View()), a)
      ensures (if a.accepted >= 0 then a.accepted !in old(kernel).interest else !a.nonblocking) ==>
        Accepted(old(View()), View(), a)
    {
      AcceptEffect(View(), a);
      if a.accepted >= 0 {
        kernel := kernel.(open := kernel.open + {a.accepted});
      }
      var max := events.Length - 1;
      var i := 0;
      while i < max && events[i].status != 0
        invariant 0 <= i <= max
        invariant forall k :: 0 <= k < i ==> events[k].status != 0
      {
        i := i + 1;
      }
      FirstFreeIs(events[..], max, i);
      if i == max || !a.nonblocking {
        return;
      }
      SetEvent(i, a.accepted, RecvData);
      AddEvent(i, {In});
    }

    /** Lines 58 to 67. */
    method DispatchOne(e: Ready, a: Answer, b: Answer) returns (ran: seq<Callback>)
      requires e.ptr < events.Length
      modifies this`kernel, events
      ensures View() == Dispatch(old(View()), e, a, b).0 && ran == Dispatch(old(View()), e, a, b).1
    {
      ran := [];
      if In in e.revents && In in events[e.ptr].events {
        ran := ran + [events[e.ptr].callback];
        CallBack(e.ptr, a);
      }
      if Out in e.revents && Out in events[e.ptr].events {
        ran := ran + [events[e.ptr].callback];
        CallBack(e.ptr, b);
      }
    }

    /** ev->call_back(ev->fd, events[i].events, ev->arg) */
    method CallBack(p: nat, a: Answer)
      requires p < events.Length
      modifies this`kernel, events
      ensures View() == Call(old(View()), p, a)
    {
      var ev := events[p];
      if ev.arg < events.Length {
        match ev.callback {
          case AcceptConn => OnAccept(a);
          case RecvData => OnReceive(ev.fd, ev.arg, a);
          case SendData => OnSend(ev.fd, ev.arg, a);
          case NoCallback =>
        }
      }
    }

    /** Lines 49 to 68: one return of epoll_wait.  Each event runs at most one callback, and that is the
        callback its slot held when epoll_wait returned. */
    method Turn(batch: seq<Ready>, answers: seq<Answers>) returns (ran: seq<seq<Callback>>)
      requires Inv(View()) && |answers| == |batch|
      requires BatchOk(kernel, batch) && AnswersOk(View(), batch, answers)
      modifies this`kernel, events
      ensures View() == DispatchAll(old(View()), batch, answers) && Inv(View())
      ensures |ran| == |batch|
      ensures forall n :: 0 <= n < |batch| ==>
        batch[n].ptr < events.Length &&
        ran[n] == if batch[n].revents * {In, Out} != {} then [old(events[..])[batch[n].ptr].callback] else []
    {
      hide Inv, Dispatch, DispatchAll, BatchOk, AnswersOk;
      ghost var start := View();
      DispatchEnds(start, batch, answers);
      ran := [];
      var nfd := |batch|;
      for i := 0 to nfd
        invariant View() == DispatchAll(start, batch[..i], answers[..i])
        invariant |ran| == i
        invariant forall n :: 0 <= n < i ==>
          batch[n].ptr < events.Length &&
          ran[n] == if batch[n].revents * {In, Out} != {} then [start.slots[batch[n].ptr].callback] else []
      {
        BatchStaysFresh(start, batch, answers, i);
        OneCallbackPerEvent(start, batch, answers, i);
        DispatchNext(start, batch, answers, i);
        var e := batch[i];
        var calls := DispatchOne(e, answers[i].0, answers[i].1);
        ran := ran + [calls];
      }
      BatchStaysFresh(start, batch, answers, nfd);
    }
  }

  /** What the search loop of acceptconn finds. */
  lemma FirstFreeIs(slots: seq<Slot>, max: nat, i: nat)
    requires i <= max <= |slots|
    requires forall k :: 0 <= k < i ==> slots[k].status != 0
    requires i < max ==> slots[i].status == 0
    ensures FirstFree(slots, max) == i
  {
  }
}
