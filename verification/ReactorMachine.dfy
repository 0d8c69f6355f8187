/**
  The epoll reactor of epoll_et/server3.c: the slot table `g_events`, the kernel's interest set, and
  the handlers that change both while a batch of ready events is dispatched.
*/
module ReactorMachine {

  datatype Bit = In | Out | Err | Hup

  datatype Callback = NoCallback | AcceptConn | RecvData | SendData

  /** One element of g_events; `arg` is the index of the element it points to. */
  datatype Slot = Slot(fd: int, events: set<Bit>, callback: Callback, arg: nat, status: int, len: int)

  const ZERO_SLOT := Slot(0, {}, NoCallback, 0, 0, 0)

  /** What the kernel keeps for a registered descriptor: data.ptr and the requested events. */
  datatype Registration = Registration(ptr: nat, events: set<Bit>)

  datatype Kernel = Kernel(open: set<int>, interest: map<int, Registration>)

  datatype State = State(slots: seq<Slot>, kernel: Kernel)

  /** One element of what epoll_wait fills in; the kernel alone knows which descriptor it is about. */
  datatype Ready = Ready(fd: int, ptr: nat, revents: set<Bit>)

  /** What the system calls of a handler would answer: recv, send, accept, and whether fcntl succeeds. */
  datatype Answer = Answer(received: int, sent: int, accepted: int, nonblocking: bool)

  // epoll_ctl and close

  /** ADD succeeds on an open descriptor that is not registered, and otherwise changes nothing. */
  function CtlAdd(k: Kernel, fd: int, reg: Registration): Kernel {
    if fd in k.open && fd !in k.interest then k.(interest := k.interest[fd := reg]) else k
  }

  function CtlDel(k: Kernel, fd: int): Kernel { k.(interest := k.interest - {fd}) }

  /** Closing a descriptor also takes it out of the interest set. */
  function Close(k: Kernel, fd: int): Kernel {
    Kernel(k.open - {fd}, k.interest - {fd})
  }

  // The functions of lines 75 to 126.

  function EventSet(s: State, i: nat, fd: int, callback: Callback): State
    requires i < |s.slots|
  {
    s.(slots := s.slots[i := Slot(fd, {}, callback, i, 0, 0)])
  }

  /** `op` is set only when status is 0: line 100 would otherwise pass an indeterminate value. */
  function EventAdd(s: State, i: nat, events: set<Bit>): State
    requires i < |s.slots| && s.slots[i].status == 0
  {
    var ev := s.slots[i].(events := events, status := 1);
    State(s.slots[i := ev], CtlAdd(s.kernel, ev.fd, Registration(i, events)))
  }

  function EventDel(s: State, i: nat): State
    requires i < |s.slots|
  {
    if s.slots[i].status != 1 then s
    else State(s.slots[i := s.slots[i].(status := 0)], CtlDel(s.kernel, s.slots[i].fd))
  }

  // The handlers.

  function Receive(s: State, fd: int, i: nat, a: Answer): State
    requires i < |s.slots|
  {
    var s1 := EventDel(s, i);
    if a.received > 0 then EventAdd(EventSet(s1, i, fd, SendData), i, {Out})
    else s1.(kernel := Close(s1.kernel, s1.slots[i].fd))
  }

  function Send(s: State, fd: int, i: nat, a: Answer): State
    requires i < |s.slots|
  {
    var s1 := EventDel(s, i);
    if a.sent > 0 then EventAdd(EventSet(s1, i, fd, RecvData), i, {In})
    else s1.(kernel := Close(s1.kernel, s1.slots[i].fd))
  }

  /** The loop of lines 200 to 206: the first free slot but the last, or `max`. */
  function FirstFree(slots: seq<Slot>, max: nat): (i: nat)
    requires max <= |slots|
    ensures i <= max && (i < max ==> slots[i].status == 0)
    ensures forall k :: 0 <= k < i ==> slots[k].status != 0
  {
    if max == 0 then 0
    else
      var i := FirstFree(slots, max - 1);
      if i < max - 1 || slots[i].status == 0 then i else max
  }

  function Accept(s: State, a: Answer): State
    requires s.slots != []
  {
    var max := |s.slots| - 1;
    var s1 := if a.accepted >= 0 then s.(kernel := s.kernel.(open := s.kernel.open + {a.accepted})) else s;
    var i := FirstFree(s1.slots, max);
    if i == max || !a.nonblocking then s1
    else EventAdd(EventSet(s1, i, a.accepted, RecvData), i, {In})
  }

  /** ev->call_back(ev->fd, ..., ev->arg); a null call_back would be a crash. */
  function Call(s: State, p: nat, a: Answer): State
    requires p < |s.slots|
  {
    var ev := s.slots[p];
    if ev.arg >= |s.slots| then s
    else match ev.callback
      case AcceptConn => Accept(s, a)
      case RecvData => Receive(s, ev.fd, ev.arg, a)
      case SendData => Send(s, ev.fd, ev.arg, a)
      case NoCallback => s
  }

  /** Lines 58 to 67 for one ready event: the table and the callbacks run. */
  function Dispatch(s: State, e: Ready, a: Answer, b: Answer): (State, seq<Callback>) {
    if e.ptr >= |s.slots| then (s, [])
    else
      var first := In in e.revents && In in s.slots[e.ptr].events;
      var s1 := if first then Call(s, e.ptr, a) else s;
      var ran := if first then [s.slots[e.ptr].callback] else [];
      if e.ptr < |s1.slots| && Out in e.revents && Out in s1.slots[e.ptr].events
      then (Call(s1, e.ptr, b), ran + [s1.slots[e.ptr].callback])
      else (s1, ran)
  }

  /** The kernel's answers to the calls one ready event leads to. */
  type Answers = (Answer, Answer)

  /** The loop of lines 56 to 68, event by event. */
  function DispatchAll(s: State, batch: seq<Ready>, answers: seq<Answers>): State
    requires |answers| == |batch|
  {
    if batch == [] then s
    else
      var n := |batch| - 1;
      Dispatch(DispatchAll(s, batch[..n], answers[..n]), batch[n], answers[n].0, answers[n].1).0
  }

  /** initlistensocket on a table of zeroes, lines 228 to 246. */
  function Start(max: nat, fd: int, open: set<int>): State {
    var s := State(seq(max + 1, _ => ZERO_SLOT), Kernel(open + {fd}, map[]));
    EventAdd(EventSet(s, max, fd, AcceptConn), max, {In})
  }

  // The kernel's side.

  /** epoll_wait reports each registered descriptor at most once, with its pointer, and only events
      that were requested, errors or hang-ups. */
  ghost predicate BatchOk(k: Kernel, batch: seq<Ready>) {
    && (forall i :: 0 <= i < |batch| ==>
          && batch[i].fd in k.interest && batch[i].ptr == k.interest[batch[i].fd].ptr
          && batch[i].revents <= k.interest[batch[i].fd].events + {Err, Hup})
    && (forall i, j :: 0 <= i < j < |batch| ==> batch[i].fd != batch[j].fd)
  }

  /** accept returns a descriptor that was not open, or fails, and then fcntl fails too. */
  predicate AnswerOk(k: Kernel, a: Answer) {
    if a.accepted >= 0 then a.accepted !in k.open else !a.nonblocking
  }

  ghost predicate AnswersOk(s: State, batch: seq<Ready>, answers: seq<Answers>)
    requires |answers| == |batch|
  {
    forall n :: 0 <= n < |batch| ==>
      AnswerOk(DispatchAll(s, batch[..n], answers[..n]).kernel, answers[n].0)
      && AnswerOk(DispatchAll(s, batch[..n], answers[..n]).kernel, answers[n].1)
  }
}
