/** Conservation, termination, and exactly when the echo pair deadlocks or completes. */
module EchoTheorems {
  import opened Bytes
  import opened Numbers
  import opened Options
  import opened EchoMachine

  /** What the server has received and not yet handed to its channel. */
  function Unsent(s: State): seq<byte> {
    if s.server.Writing? && s.server.written <= |s.server.buf|
    then s.server.buf[s.server.written..] else []
  }

  /** All the client can get rid of before it receives. */
  function MostInFlight(e: Echo): nat { e.c1 + e.c2 + Min(e.b, e.c1) }

  /** The bytes sent, wherever they are by now, in order. */
  ghost predicate Conserved(e: Echo, s: State) {
    && s.sent <= |e.message|
    && s.received + s.toClient + Unsent(s) + s.toServer == e.message[..s.sent]
  }

  ghost predicate Shape(e: Echo, s: State) {
    && |s.toServer| <= e.c1 && |s.toClient| <= e.c2
    && (s.server.Writing? ==> s.server.written <= |s.server.buf| <= e.b && |s.server.buf| <= e.c1)
    && (s.client == Sending ==> s.received == [])
    && (s.client != Sending ==> s.sent == |e.message|)
    && (s.client == Closed ==> |s.received| == |e.message|)
    && (s.server == Ended ==> s.client == Closed)
    && (|e.message| > MostInFlight(e) ==> s.client == Sending)
  }

  ghost predicate Inv(e: Echo, s: State) { Conserved(e, s) && Shape(e, s) }

  // Conservation, one step at a time.

  lemma SendConserves(e: Echo, s: State, n: nat)
    requires Conserved(e, s) && Enabled(e, s, ClientSend(n))
    ensures Conserved(e, Step(e, s, ClientSend(n)))
  {
    assert e.message[..s.sent] + e.message[s.sent..s.sent + n] == e.message[..s.sent + n];
  }

  lemma RecvConserves(e: Echo, s: State, n: nat)
    requires Conserved(e, s) && Enabled(e, s, ClientRecv(n))
    ensures Conserved(e, Step(e, s, ClientRecv(n)))
  {
    assert s.toClient == s.toClient[..n] + s.toClient[n..];
  }

  lemma ServerRecvConserves(e: Echo, s: State, n: nat)
    requires Conserved(e, s) && Enabled(e, s, ServerRecv(n))
    ensures Conserved(e, Step(e, s, ServerRecv(n)))
  {
    assert s.toServer == s.toServer[..n] + s.toServer[n..];
  }

  lemma Assoc(a: seq<byte>, b: seq<byte>, c: seq<byte>)
    ensures (a + b) + c == a + (b + c)
  {
  }

  lemma Regroup(a: seq<byte>, b: seq<byte>, x: seq<byte>, y: seq<byte>, d: seq<byte>)
    ensures a + (b + x) + y + d == a + b + (x + y) + d
  {
    Assoc(a, b, x);
    Assoc(a + b, x, y);
  }

  /** A send moves the first of the unsent bytes to the end of the channel. */
  lemma ServerSendMoves(e: Echo, s: State, n: nat) returns (moved: seq<byte>)
    requires Enabled(e, s, ServerSend(n))
    ensures var s' := Step(e, s, ServerSend(n));
      && s'.toClient == s.toClient + moved && Unsent(s) == moved + Unsent(s')
      && s'.received == s.received && s'.toServer == s.toServer && s'.sent == s.sent
  {
    var w := s.server.written;
    moved := s.server.buf[w..w + n];
    assert s.server.buf[w..] == moved + s.server.buf[w + n..];
  }

  lemma ServerSendConserves(e: Echo, s: State, n: nat)
    requires Conserved(e, s) && Enabled(e, s, ServerSend(n))
    ensures Conserved(e, Step(e, s, ServerSend(n)))
  {
    var moved := ServerSendMoves(e, s, n);
    var s' := Step(e, s, ServerSend(n));
    hide Step, Unsent;
    Regroup(s.received, s.toClient, moved, Unsent(s'), s.toServer);
  }

  lemma ShapeKept(e: Echo, s: State, a: Action)
    requires Inv(e, s) && Enabled(e, s, a)
    ensures Shape(e, Step(e, s, a))
  {
    assert |s.received| + |s.toClient| + |Unsent(s)| + |s.toServer| == s.sent;
  }

  lemma StepKeeps(e: Echo, s: State, a: Action)
    requires Inv(e, s) && Enabled(e, s, a)
    ensures Inv(e, Step(e, s, a))
  {
    ShapeKept(e, s, a);
    match a
    case ClientSend(n) => SendConserves(e, s, n);
    case ClientRecv(n) => RecvConserves(e, s, n);
    case ServerRecv(n) => ServerRecvConserves(e, s, n);
    case ServerSend(n) => ServerSendConserves(e, s, n);
    case _ =>
  }

  // Termination.

  /** Each byte has four moves to make, worth two each; a turn or a close is worth one. */
  function Measure(e: Echo, s: State): int {
    8 * (|e.message| - s.sent) + 6 * |s.toServer| + 4 * |Unsent(s)| + 2 * |s.toClient|
    + (match s.client case Sending => 2 case Receiving => 1 case Closed => 0)
    + (match s.server case Writing(_, _) => 2 case Reading => 1 case Ended => 0)
  }

  lemma SentBound(e: Echo, s: State)
    requires Inv(e, s)
    ensures s.sent <= |e.message| && (s.server.Writing? ==> s.server.written <= |s.server.buf|)
  {
  }

  lemma StepCosts(e: Echo, s: State, a: Action)
    requires Inv(e, s) && Enabled(e, s, a)
    ensures 0 <= Measure(e, Step(e, s, a)) < Measure(e, s)
  {
    StepKeeps(e, s, a);
    SentBound(e, s);
    SentBound(e, Step(e, s, a));
    hide Conserved, Shape;
  }

  /** The invariant, and the steps taken and still to come within the budget. */
  ghost predicate Bounded(e: Echo, s: State, n: nat) {
    Inv(e, s) && 0 <= Measure(e, s) && n + Measure(e, s) <= 8 * |e.message| + 3
  }

  lemma BoundedNext(e: Echo, p: State, a: Action, s: State, n: nat)
    requires Bounded(e, p, n) && Enabled(e, p, a) && s == Step(e, p, a)
    ensures Bounded(e, s, n + 1)
  {
    StepKeeps(e, p, a);
    StepCosts(e, p, a);
  }

  lemma {:induction false} AfterBounded(e: Echo, acts: seq<Action>)
    requires After(e, acts).Some?
    ensures Bounded(e, After(e, acts).value, |acts|)
  {
    if acts != [] {
      var last := |acts| - 1;
      AfterBounded(e, acts[..last]);
      BoundedNext(e, After(e, acts[..last]).value, acts[last], After(e, acts).value, last);
    }
  }

  lemma ReachableInv(e: Echo, s: State)
    requires Reachable(e, s)
    ensures Inv(e, s)
  {
    var acts :| After(e, acts) == Some(s);
    AfterBounded(e, acts);
  }

  /** Every run ends, after at most 8 * |message| + 3 steps, however it is scheduled. */
  lemma RunsAreShort(e: Echo, acts: seq<Action>)
    requires After(e, acts).Some?
    ensures |acts| <= 8 * |e.message| + 3
  {
    AfterBounded(e, acts);
  }

  /** No byte is lost, duplicated or reordered: in every reachable state the bytes received, then
      those on their way back, then those in the server, then those on their way there are what
      the client has sent. */
  lemma Conservation(e: Echo, s: State)
    requires Reachable(e, s)
    ensures s.sent <= |e.message|
    ensures s.received + s.toClient + Unsent(s) + s.toServer == e.message[..s.sent]
    ensures s.client == Closed ==> s.received == e.message && s.sent == |e.message|
  {
    ReachableInv(e, s);
  }

  // Where a run can end.

  /** Both programs have run to their end with the message echoed. */
  ghost predicate Completed(e: Echo, s: State) {
    s.client == Closed && s.server == Ended && s.received == e.message
  }

  /** Both channels are full, the server cannot send and the client does not receive. */
  ghost predicate Deadlocked(e: Echo, s: State) {
    && s.client == Sending && s.sent < |e.message|
    && |s.toServer| == e.c1 && |s.toClient| == e.c2 && Unsent(s) != []
  }

  /** Who can move when the run is not over. */
  lemma MoveExists(e: Echo, s: State) returns (a: Action)
    requires ValidEcho(e) && Inv(e, s) && !Completed(e, s) && !Deadlocked(e, s)
    ensures Enabled(e, s, a)
  {
    if s.server.Writing? && s.server.written == |s.server.buf| {
      a := ServerTurn;
    } else if s.server.Writing? && |s.toClient| < e.c2 {
      a := ServerSend(1);
    } else if s.server == Reading && s.toServer != [] {
      a := ServerRecv(1);
    } else if s.client == Sending {
      a := if s.sent == |e.message| then ClientTurn else ClientSend(1);
    } else if s.client == Receiving {
      a := if |s.received| == |e.message| then ClientClose else ClientRecv(1);
    } else {
      a := ServerEof;
    }
  }

  /** A run stops exactly when it has completed or deadlocked. */
  lemma StuckExactlyAtEnds(e: Echo, s: State)
    requires ValidEcho(e) && Reachable(e, s)
    ensures Stuck(e, s) <==> Completed(e, s) || Deadlocked(e, s)
  {
    ReachableInv(e, s);
    if !Completed(e, s) && !Deadlocked(e, s) {
      var a := MoveExists(e, s);
    } else if Completed(e, s) {
      assert |s.received| + |s.toClient| + |Unsent(s)| + |s.toServer| == s.sent;
    }
  }

  // The deadlock threshold.

  /** The server passes i bytes on, one by one. */
  lemma {:induction false} PassOn(e: Echo, i: nat)
    requires ValidEcho(e) && i <= e.c2 && i <= |e.message|
    ensures Reachable(e, State(Sending, i, [], [], e.message[..i], Reading))
  {
    if i == 0 {
      assert After(e, []) == Some(Init());
      assert e.message[..0] == [];
    } else {
      PassOn(e, i - 1);
      PassOne(e, i - 1);
    }
  }

  lemma PassOne(e: Echo, i: nat)
    requires ValidEcho(e) && i < e.c2 && i < |e.message|
    requires Reachable(e, State(Sending, i, [], [], e.message[..i], Reading))
    ensures Reachable(e, State(Sending, i + 1, [], [], e.message[..i + 1], Reading))
  {
    var s := State(Sending, i, [], [], e.message[..i], Reading);
    var x := e.message[i..i + 1];
    ReachableNext(e, s, ClientSend(1));
    assert [] + x == x;
    var s1 := State(Sending, i + 1, [], x, e.message[..i], Reading);
    ReachableNext(e, s1, ServerRecv(1));
    assert x[..1] == x && x[1..] == [];
    var s2 := State(Sending, i + 1, [], [], e.message[..i], Writing(x, 0));
    ReachableNext(e, s2, ServerSend(1));
    assert x[0..0 + 1] == x && e.message[..i] + x == e.message[..i + 1];
    var s3 := State(Sending, i + 1, [], [], e.message[..i + 1], Writing(x, 1));
    ReachableNext(e, s3, ServerTurn);
  }

  /** With the way back full, the client sends m bytes, the server takes k of them, and the
      client sends j more. */
  function Loaded(e: Echo, m: nat, k: nat, j: nat): State
    requires k <= m && e.c2 + m + j <= |e.message|
  {
    State(Sending, e.c2 + m + j, [], e.message[e.c2 + k..e.c2 + m + j], e.message[..e.c2],
          Writing(e.message[e.c2..e.c2 + k], 0))
  }

  lemma LoadUp(e: Echo, m: nat, k: nat, j: nat)
    requires ValidEcho(e) && 1 <= k <= m <= e.c1 && k <= e.b && m - k + j <= e.c1
    requires e.c2 + m + j <= |e.message|
    ensures Reachable(e, Loaded(e, m, k, j))
  {
    hide Reachable;
    FirstLoad(e, m, k);
    if j > 0 {
      ReachableNext(e, Loaded(e, m, k, 0), ClientSend(j));
      assert e.message[e.c2 + k..e.c2 + m] + e.message[e.c2 + m..e.c2 + m + j]
          == e.message[e.c2 + k..e.c2 + m + j];
    }
  }

  lemma FirstLoad(e: Echo, m: nat, k: nat)
    requires ValidEcho(e) && 1 <= k <= m <= e.c1 && k <= e.b
    requires e.c2 + m <= |e.message|
    ensures Reachable(e, Loaded(e, m, k, 0))
  {
    hide Reachable;
    PassOn(e, e.c2);
    var s := State(Sending, e.c2, [], [], e.message[..e.c2], Reading);
    ReachableNext(e, s, ClientSend(m));
    var x := e.message[e.c2..e.c2 + m];
    assert [] + x == x;
    var s1 := State(Sending, e.c2 + m, [], x, e.message[..e.c2], Reading);
    ReachableNext(e, s1, ServerRecv(k));
    assert x[..k] == e.message[e.c2..e.c2 + k] && x[k..] == e.message[e.c2 + k..e.c2 + m];
  }

  /** Some schedule deadlocks if and only if the message is longer than both channels and the
      one byte the server must hold. */
  lemma DeadlockThreshold(e: Echo)
    requires ValidEcho(e)
    ensures (exists s :: Reachable(e, s) && Deadlocked(e, s)) <==> |e.message| > e.c1 + e.c2 + 1
  {
    if |e.message| > e.c1 + e.c2 + 1 {
      LoadUp(e, 1, 1, e.c1);
      assert Deadlocked(e, Loaded(e, 1, 1, e.c1));
    } else {
      forall s | Reachable(e, s)
        ensures !Deadlocked(e, s)
      {
        ReachableInv(e, s);
        assert |s.received| + |s.toClient| + |Unsent(s)| + |s.toServer| == s.sent;
      }
    }
  }

  /** The same threshold as liveness: up to it, and only up to it, somebody can move in every
      reachable state in which the client has not received the whole message. */
  lemma ProgressThreshold(e: Echo)
    requires ValidEcho(e)
    ensures (forall s :: Reachable(e, s) && |s.received| < |e.message| ==> !Stuck(e, s))
       <==> |e.message| <= e.c1 + e.c2 + 1
  {
    DeadlockThreshold(e);
    if |e.message| > e.c1 + e.c2 + 1 {
      var s :| Reachable(e, s) && Deadlocked(e, s);
      StuckExactlyAtEnds(e, s);
      ReachableInv(e, s);
    } else {
      forall s | Reachable(e, s) && |s.received| < |e.message|
        ensures !Stuck(e, s)
      {
        StuckExactlyAtEnds(e, s);
      }
    }
  }

  // The completion threshold.

  /** Once the client receives, any schedule runs to completion; here is one. */
  lemma {:induction false} ReceivingCompletes(e: Echo, s: State) returns (final: State)
    requires ValidEcho(e) && Reachable(e, s) && s.client != Sending
    ensures Reachable(e, final) && Completed(e, final)
    decreases Measure(e, s)
  {
    ReachableInv(e, s);
    if Completed(e, s) {
      final := s;
    } else {
      var a := MoveExists(e, s);
      ReachableNext(e, s, a);
      StepCosts(e, s, a);
      final := ReceivingCompletes(e, Step(e, s, a));
    }
  }

  lemma SendsAll(e: Echo) returns (s: State)
    requires ValidEcho(e) && |e.message| <= MostInFlight(e)
    ensures Reachable(e, s) && s.client == Receiving
  {
    var len := |e.message|;
    if len <= e.c2 {
      PassOn(e, len);
      s := State(Sending, len, [], [], e.message[..len], Reading);
    } else {
      var m := Min(e.c1, len - e.c2);
      var k := Min(e.b, m);
      LoadUp(e, m, k, len - e.c2 - m);
      s := Loaded(e, m, k, len - e.c2 - m);
    }
    ReachableNext(e, s, ClientTurn);
    s := Step(e, s, ClientTurn);
  }

  /** Some schedule completes if and only if the message fits in flight. */
  lemma CompletionThreshold(e: Echo)
    requires ValidEcho(e)
    ensures (exists s :: Reachable(e, s) && Completed(e, s)) <==> |e.message| <= MostInFlight(e)
  {
    if |e.message| <= MostInFlight(e) {
      var s := SendsAll(e);
      var final := ReceivingCompletes(e, s);
    } else {
      forall s | Reachable(e, s)
        ensures s.client == Sending
      {
        ReachableInv(e, s);
      }
    }
  }

  /** The three regimes, for every run that has come to its end: up to the first threshold it
      has echoed the whole message, beyond the second it has deadlocked. */
  lemma HowRunsEnd(e: Echo, s: State)
    requires ValidEcho(e) && Reachable(e, s) && Stuck(e, s)
    ensures |e.message| <= e.c1 + e.c2 + 1 ==> Completed(e, s) && s.sent == |s.received|
    ensures |e.message| > MostInFlight(e) ==> Deadlocked(e, s)
  {
    StuckExactlyAtEnds(e, s);
    DeadlockThreshold(e);
    CompletionThreshold(e);
    Conservation(e, s);
  }
}
