/**
  The ttcp echo pair: a client that sends its whole message and only then receives
  (ttcp/echo_client.cc), a server that alternates receiveSome and sendAll (ttcp/echo.cc), and
  two failure-free bounded FIFO channels between them.

  A blocking send moves any positive number of bytes that fit, a blocking receive any positive
  number that are there; the scheduler picks who moves and how much.
*/
module EchoMachine {

  import opened Bytes
  import opened Options

  datatype Echo = Echo(
    message: seq<byte>,
    c1: nat,    // what the client-to-server channel holds
    c2: nat,    // what the server-to-client channel holds
    b: nat)     // the server's buffer

  ghost predicate ValidEcho(e: Echo) { e.c1 >= 1 && e.c2 >= 1 && e.b >= 1 }

  datatype Client = Sending | Receiving | Closed

  datatype Server = Reading | Writing(buf: seq<byte>, written: nat) | Ended

  datatype State = State(
    client: Client, sent: nat, received: seq<byte>,
    toServer: seq<byte>, toClient: seq<byte>, server: Server)

  datatype Action =
    | ClientSend(n: nat)    // TcpStream.cc:48
    | ClientTurn            // sendAll returns, receiveAll begins
    | ClientRecv(n: nat)    // TcpStream.cc:35
    | ClientClose           // receiveAll returns, main ends
    | ServerRecv(n: nat)    // echo.cc:38
    | ServerSend(n: nat)    // TcpStream.cc:48
    | ServerTurn            // sendAll returns nr, the loop goes on
    | ServerEof             // receiveSome returns 0

  function Init(): State { State(Sending, 0, [], [], [], Reading) }

  predicate Enabled(e: Echo, s: State, a: Action) {
    match a
    case ClientSend(n) =>
      s.client == Sending && 1 <= n && s.sent + n <= |e.message| && |s.toServer| + n <= e.c1
    case ClientTurn => s.client == Sending && s.sent >= |e.message|
    case ClientRecv(n) =>
      s.client == Receiving && 1 <= n <= |s.toClient| && |s.received| + n <= |e.message|
    case ClientClose => s.client == Receiving && |s.received| >= |e.message|
    case ServerRecv(n) => s.server == Reading && 1 <= n <= |s.toServer| && n <= e.b
    case ServerSend(n) =>
      s.server.Writing? && 1 <= n && s.server.written + n <= |s.server.buf| && |s.toClient| + n <= e.c2
    case ServerTurn => s.server.Writing? && s.server.written >= |s.server.buf|
    case ServerEof => s.server == Reading && s.toServer == [] && s.client == Closed
  }

  function Step(e: Echo, s: State, a: Action): State
    requires Enabled(e, s, a)
  {
    match a
    case ClientSend(n) =>
      s.(sent := s.sent + n, toServer := s.toServer + e.message[s.sent..s.sent + n])
    case ClientTurn => s.(client := Receiving)
    case ClientRecv(n) =>
      s.(received := s.received + s.toClient[..n], toClient := s.toClient[n..])
    case ClientClose => s.(client := Closed)
    case ServerRecv(n) =>
      s.(server := Writing(s.toServer[..n], 0), toServer := s.toServer[n..])
    case ServerSend(n) =>
      var w := s.server.written;
      s.(server := Writing(s.server.buf, w + n), toClient := s.toClient + s.server.buf[w..w + n])
    case ServerTurn => s.(server := Reading)
    case ServerEof => s.(server := Ended)
  }

  /** Where a schedule leads, if each of its moves is possible. */
  function After(e: Echo, acts: seq<Action>): Option<State> {
    if acts == [] then Some(Init())
    else
      var last := |acts| - 1;
      match After(e, acts[..last])
      case Some(p) => if Enabled(e, p, acts[last]) then Some(Step(e, p, acts[last])) else None
      case None => None
  }

  ghost predicate Reachable(e: Echo, s: State) {
    exists acts :: After(e, acts) == Some(s)
  }

  ghost predicate Stuck(e: Echo, s: State) {
    forall a :: !Enabled(e, s, a)
  }

  lemma ReachableNext(e: Echo, s: State, a: Action)
    requires Reachable(e, s) && Enabled(e, s, a)
    ensures Reachable(e, Step(e, s, a))
  {
    var acts :| After(e, acts) == Some(s);
    assert (acts + [a])[..|acts|] == acts;
    assert After(e, acts + [a]) == Some(Step(e, s, a));
  }
}
