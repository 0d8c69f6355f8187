/** Which descriptors are open: a connection that acceptconn turns away is never closed. */
module ReactorOpen {
  import opened Options
  import opened ReactorMachine
  import opened ReactorTheorems

  /** What a callback accepts without giving it a slot: the table is full, or fcntl fails. */
  function CallRefuses(s: State, p: nat, a: Answer): set<int>
    requires p < |s.slots|
  {
    var ev, max := s.slots[p], |s.slots| - 1;
    if ev.arg < |s.slots| && ev.callback == AcceptConn && a.accepted >= 0 && (FirstFree(s.slots, max) == max || !a.nonblocking)
    then {a.accepted} else {}
  }

  function DispatchRefuses(s: State, e: Ready, a: Answer, b: Answer): set<int> {
    if e.ptr >= |s.slots| then {}
    else
      var first := In in e.revents && In in s.slots[e.ptr].events;
      var s1 := if first then Call(s, e.ptr, a) else s;
      (if first then CallRefuses(s, e.ptr, a) else {})
      + (if e.ptr < |s1.slots| && Out in e.revents && Out in s1.slots[e.ptr].events
         then CallRefuses(s1, e.ptr, b) else {})
  }

  function BatchRefuses(s: State, batch: seq<Ready>, answers: seq<Answers>): set<int>
    requires |answers| == |batch|
  {
    if batch == [] then {}
    else
      var n := |batch| - 1;
      BatchRefuses(s, batch[..n], answers[..n])
      + DispatchRefuses(DispatchAll(s, batch[..n], answers[..n]), batch[n], answers[n].0, answers[n].1)
  }

  /** Everything accepted and turned away in a series of waits. */
  ghost function Refused(max: nat, fd: int, open: set<int>, ws: seq<Wait>): set<int> {
    if ws == [] then {}
    else
      var w, before := ws[|ws| - 1], ws[..|ws| - 1];
      match After(max, fd, open, before)
      case Some(p) => if WaitOk(p, w) then Refused(max, fd, open, before) + BatchRefuses(p, w.batch, w.answers) else {}
      case None => {}
  }

  /** Slot i is a client's, in use for descriptor d. */
  predicate Client(s: State, i: nat, d: int) {
    i < |s.slots| - 1 && s.slots[i].status == 1 && s.slots[i].fd == d
  }

  /** Open: `kept`, which no slot of a client names, and the descriptors of the clients' slots. */
  ghost predicate OpenInv(kept: set<int>, s: State) {
    && (forall d :: d in s.kernel.open <==> d in kept || exists i: nat :: Client(s, i, d))
    && (forall i: nat, d :: Client(s, i, d) ==> d !in kept)
  }

  lemma Distinct(s: State, i: nat, j: nat, d: int)
    requires Inv(s) && Client(s, i, d) && Client(s, j, d)
    ensures i == j
  {
    assert SlotOk(s, i) && SlotOk(s, j);
  }

  /** recvdata and senddata: the slot keeps its descriptor, or gives it up and closes it. */
  lemma ClientOpen(kept: set<int>, s: State, p: nat, a: Answer)
    requires Inv(s) && OpenInv(kept, s) && p < |s.slots| - 1 && s.slots[p].status == 1
    ensures CallRefuses(s, p, a) == {} && OpenInv(kept, Call(s, p, a))
  {
    assert SlotOk(s, p);
    var s', fd := Call(s, p, a), s.slots[p].fd;
    assert Client(s, p, fd);
    forall i: nat, d | Client(s, i, d)
      ensures d == fd ==> i == p
      ensures Client(s', i, d) || (i == p && d !in s'.kernel.open)
    {
      if d == fd {
        Distinct(s, i, p, d);
      }
    }
    forall i: nat, d | Client(s', i, d)
      ensures Client(s, i, d)
    {
    }
    forall d
      ensures d in s'.kernel.open <==> d in kept || exists i: nat :: Client(s', i, d)
    {
      if i: nat :| Client(s, i, d) {
        assert Client(s', i, d) || d !in s'.kernel.open;
      }
    }
  }

  /** acceptconn: what it accepts is in a client's slot or stays open without one. */
  lemma AcceptOpen(kept: set<int>, s: State, a: Answer)
    requires Inv(s) && OpenInv(kept, s) && AnswerOk(s.kernel, a)
    ensures OpenInv(kept + CallRefuses(s, |s.slots| - 1, a), Accept(s, a))
  {
    var max := |s.slots| - 1;
    assert SlotOk(s, max);
    var s', kept' := Accept(s, a), kept + CallRefuses(s, max, a);
    var i := FirstFree(s.slots, max);
    forall j: nat, d | Client(s, j, d)
      ensures Client(s', j, d) && (a.accepted >= 0 ==> d != a.accepted)
    {
      assert SlotOk(s, j);
    }
    forall j: nat, d | Client(s', j, d)
      ensures Client(s, j, d) || (j == i && d == a.accepted && a.accepted !in s.kernel.open)
    {
    }
    if i < max && a.nonblocking {
      assert Client(s', i, a.accepted);
    }
  }

  lemma CallOpen(kept: set<int>, s: State, p: nat, a: Answer)
    requires Inv(s) && OpenInv(kept, s) && p < |s.slots| && s.slots[p].status == 1 && AnswerOk(s.kernel, a)
    ensures OpenInv(kept + CallRefuses(s, p, a), Call(s, p, a))
  {
    assert SlotOk(s, p);
    if p < |s.slots| - 1 {
      ClientOpen(kept, s, p, a);
      assert kept + CallRefuses(s, p, a) == kept;
    } else {
      AcceptOpen(kept, s, a);
    }
  }

  lemma DispatchOpen(kept: set<int>, s: State, e: Ready, a: Answer, b: Answer)
    requires Inv(s) && OpenInv(kept, s) && e.ptr < |s.slots| && s.slots[e.ptr].status == 1
    requires e.revents <= s.slots[e.ptr].events + {Err, Hup}
    requires AnswerOk(s.kernel, a) && AnswerOk(s.kernel, b)
    ensures OpenInv(kept + DispatchRefuses(s, e, a, b), Dispatch(s, e, a, b).0)
  {
    assert SlotOk(s, e.ptr);
    CallOpen(kept, s, e.ptr, a);
    CallOpen(kept, s, e.ptr, b);
    hide OpenInv, Inv, Call, CallRefuses;
    var events := s.slots[e.ptr].events;
    assert In in e.revents ==> In in events && Out !in e.revents;
    assert Out in e.revents ==> Out in events;
    if In in e.revents {
      assert DispatchRefuses(s, e, a, b) == CallRefuses(s, e.ptr, a);
    } else if Out in e.revents {
      assert DispatchRefuses(s, e, a, b) == CallRefuses(s, e.ptr, b);
    } else {
      assert kept + DispatchRefuses(s, e, a, b) == kept;
    }
  }

  lemma {:induction false} BatchOpen(kept: set<int>, s: State, batch: seq<Ready>, answers: seq<Answers>, n: nat)
    requires Inv(s) && OpenInv(kept, s) && |answers| == |batch| && n <= |batch|
    requires BatchOk(s.kernel, batch) && AnswersOk(s, batch, answers)
    ensures OpenInv(kept + BatchRefuses(s, batch[..n], answers[..n]), DispatchAll(s, batch[..n], answers[..n]))
  {
    hide OpenInv, Inv, BatchOk, DispatchRefuses, Dispatch;
    if n == 0 {
      assert kept + BatchRefuses(s, batch[..n], answers[..n]) == kept;
    } else {
      var b, r := batch[..n - 1], answers[..n - 1];
      BatchOpen(kept, s, batch, answers, n - 1);
      BatchStaysFresh(s, batch, answers, n - 1);
      EventIsFresh(s, batch, n - 1);
      assert batch[..n][..n - 1] == b && answers[..n][..n - 1] == r;
      var before := DispatchAll(s, b, r);
      assert AnswerOk(before.kernel, answers[n - 1].0) && AnswerOk(before.kernel, answers[n - 1].1);
      DispatchOpen(kept + BatchRefuses(s, b, r), before, batch[n - 1], answers[n - 1].0, answers[n - 1].1);
      assert kept + BatchRefuses(s, batch[..n], answers[..n])
        == kept + BatchRefuses(s, b, r) + DispatchRefuses(before, batch[n - 1], answers[n - 1].0, answers[n - 1].1);
    }
  }

  lemma StartOpen(max: nat, fd: int, open: set<int>)
    ensures OpenInv(open + {fd}, Start(max, fd, open))
  {
  }

  lemma {:induction false} RunOpen(max: nat, fd: int, open: set<int>, ws: seq<Wait>)
    requires After(max, fd, open, ws).Some?
    ensures OpenInv(open + {fd} + Refused(max, fd, open, ws), After(max, fd, open, ws).value)
  {
    hide OpenInv, DispatchAll, BatchRefuses;
    var kept := open + {fd};
    if ws == [] {
      StartOpen(max, fd, open);
      assert kept + Refused(max, fd, open, ws) == kept;
    } else {
      var w, before := ws[|ws| - 1], ws[..|ws| - 1];
      var p := After(max, fd, open, before).value;
      RunOpen(max, fd, open, before);
      AfterInv(max, fd, open, before);
      BatchOpen(kept + Refused(max, fd, open, before), p, w.batch, w.answers, |w.batch|);
      assert w.batch[..|w.batch|] == w.batch && w.answers[..|w.batch|] == w.answers;
      assert kept + Refused(max, fd, open, ws)
        == kept + Refused(max, fd, open, before) + BatchRefuses(p, w.batch, w.answers);
    }
  }

  /** Between batches the open descriptors are the initial ones, the listener, the clients' slots', and
      every one accepted and turned away; no slot of a client names any of the others. */
  lemma OpenDescriptors(max: nat, fd: int, open: set<int>, ws: seq<Wait>, s: State)
    requires After(max, fd, open, ws) == Some(s)
    ensures forall d :: d in s.kernel.open <==>
      d in open || d == fd || d in Refused(max, fd, open, ws) || exists i: nat :: Client(s, i, d)
    ensures forall i: nat, d :: Client(s, i, d) ==> d !in open && d != fd && d !in Refused(max, fd, open, ws)
  {
    RunOpen(max, fd, open, ws);
    hide After, Refused;
  }
}
