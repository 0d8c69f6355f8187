/** The loops of seclect/server.c and seclect/server2.c as the code runs them, in place. */
module SelectCode {
  import opened Bytes
  import opened SelectServers
  import opened SelectTheorems
  import opened SelectStreams

  /** Lines 77 to 80 of server.c. */
  method UpperInPlace(buf: array<byte>, n: nat)
    requires n <= buf.Length
    modifies buf
    ensures buf[..n] == Upper(old(buf[..n])) && buf[n..] == old(buf[n..])
  {
    for j := 0 to n
      invariant forall k :: 0 <= k < j ==> buf[k] == ToUpper(old(buf[k]))
      invariant forall k :: j <= k < buf.Length ==> buf[k] == old(buf[k])
    {
      buf[j] := ToUpper(buf[j]);
    }
  }

  /** What both servers keep between turns. */
  class Server {
    const fd: int
    var allset: set<int>
    var maxfd: int
    var log: seq<Event>
    var down: bool

    ghost function View(): Core
      reads this
    {
      Core(allset, maxfd, log, down)
    }

    constructor (fd: int)
      ensures this.fd == fd && View() == PlainStart(fd)
    {
      this.fd, allset, maxfd, log, down := fd, {fd}, fd, [], false;
    }

    /** The part of a turn that takes a new client in, past accept. */
    method Admit(cfd: int)
      modifies this
      ensures View() == Accept(old(View()), cfd)
    {
      log := log + [Accepted(cfd)];
      allset := allset + {cfd};
      if maxfd < cfd {
        maxfd := cfd;
      }
    }

    /** Read from one ready client and answer it. */
    method Answer(d: int, got: Got)
      modifies this
      ensures View() == Service(old(View()), d, got)
      ensures match got
        case Error => down && log == old(log) && allset == old(allset)
        case Eof => down == old(down) && log == old(log) + [Closed(d)] && allset == old(allset) - {d}
        case Data(bytes) =>
          && down == old(down) && allset == old(allset) && |log| == |old(log)| + 1 && log[..|log| - 1] == old(log)
          && log[|log| - 1].Served? && log[|log| - 1].fd == d && log[|log| - 1].got == bytes
          && UpperOf(bytes, log[|log| - 1].sent)
    {
      match got {
        case Error => down := true;
        case Eof =>
          log := log + [Closed(d)];
          allset := allset - {d};
        case Data(bytes) =>
          var n := |bytes|;
          var buf := new byte[n](k requires 0 <= k < n => bytes[k]);
          assert buf[..n] == bytes;
          UpperInPlace(buf, n);
          log := log + [Served(d, bytes, buf[..n])];
      }
    }

    /** server.c, lines 32 to 87. */
    method PlainTurn(ready: set<int>, cfd: int, input: int -> Got) returns (ghost evs: seq<Event>)
      requires !down
      modifies this
      ensures View() == PlainRound(fd, old(View()), Wake(ready, cfd, input))
      ensures Turned(fd, old(View()), View(), Wake(ready, cfd, input), evs)
    {
      ghost var w := Wake(ready, cfd, input);
      evs := TurnLogged(fd, View(), w);
      hide Turned;
      var rset, ret := ready, |ready|;
      if fd in rset {
        if cfd < 0 {
          down := true;
          return;
        }
        Admit(cfd);
        if ret == 1 {
          return;
        }
      }
      ghost var start := View();
      var i := fd + 1;
      while i <= maxfd && !down
        invariant PlainScan(start, fd + 1, w) == PlainScan(View(), i, w)
        invariant maxfd == start.maxfd
        decreases maxfd - i, !down
      {
        if i in rset {
          Answer(i, input(i));
        }
        i := i + 1;
      }
    }
  }

  /** server2.c adds a table of clients and its high-water mark. */
  class TableServer {
    const server: Server
    const cfds: array<int>
    var maxindex: int

    ghost function View(): Table
      reads this, server, cfds
    {
      Table(server.View(), cfds[..], maxindex)
    }

    /** Lines 25 to 33. */
    constructor (fd: int, size: nat)
      ensures View() == TableStart(fd, size) && fresh(server) && fresh(cfds) && server.fd == fd
    {
      server := new Server(fd);
      maxindex := -1;
      cfds := new int[size](_ => -1);
      new;
      assert cfds[..] == seq(size, _ => -1);
    }

    /** Lines 59 to 83: the first free slot; sys_err when there is none. */
    method Enter(cfd: int)
      requires !server.down
      modifies this, server, cfds
      ensures View() == TableAccept(old(View()), cfd)
    {
      ghost var before := cfds[..];
      var index := 0;
      while index < cfds.Length
        invariant 0 <= index <= cfds.Length && cfds[..] == before
        invariant forall k :: 0 <= k < index ==> cfds[k] >= 0
        invariant maxindex == old(maxindex) && server.View() == old(server.View())
      {
        if cfds[index] < 0 {
          assert FirstFree(before) == index;
          cfds[index] := cfd;
          break;
        }
        index := index + 1;
      }
      if index == cfds.Length {
        server.down := true;
        return;
      }
      assert cfds[..] == before[index := cfd];
      server.Admit(cfd);
      if maxindex < index {
        maxindex := index;
      }
    }

    /** One ready client in slot i, lines 100 to 124. */
    method ServeClient(i: nat, input: int -> Got, ghost w: Wake)
      requires i < cfds.Length && w.input == input
      modifies server, cfds
      ensures View() == ServeSlot(old(View()), i, w)
    {
      var socketfd := cfds[i];
      server.Answer(socketfd, input(socketfd));
      if input(socketfd).Eof? {
        cfds[i] := -1;
      }
    }

    /** Lines 91 to 138: the scan, with the countdown on what select returned. */
    method Scan(rset: set<int>, count: int, input: int -> Got, ghost w: Wake)
      requires -1 <= maxindex < cfds.Length && w.ready == rset && w.input == input
      modifies server, cfds
      ensures View() == CountdownScan(old(View()), 0, count, w)
    {
      ghost var start := View();
      var ret := count;
      var i := 0;
      var done := false;
      while i <= maxindex && !server.down && !done
        invariant 0 <= i && maxindex == start.maxindex < cfds.Length
        invariant !done ==> CountdownScan(start, 0, count, w) == CountdownScan(View(), i, ret, w)
        invariant done ==> CountdownScan(start, 0, count, w) == View()
        decreases maxindex - i, !done
      {
        var socketfd := cfds[i];
        if socketfd >= 0 && socketfd in rset {
          ServeClient(i, input, w);
          ret := ret - 1;
          if ret == 0 {
            done := true;
          }
        }
        i := i + 1;
      }
    }

    /** server2.c, lines 38 to 138. */
    method TableTurn(ready: set<int>, cfd: int, input: int -> Got)
      requires !server.down && -1 <= maxindex < cfds.Length
      modifies this, server, cfds
      ensures View() == TableRound(server.fd, old(View()), Wake(ready, cfd, input))
      ensures var w := Wake(ready, cfd, input);
        CanTurn(server.fd, old(View()), w) ==>
          exists evs :: Turned(server.fd, old(View()).core, View().core, w, evs)
    {
      ghost var w := Wake(ready, cfd, input);
      TableLogs(server.fd, View(), w);
      hide Turned, CanTurn;
      var ret: int := |ready|;
      if server.fd in ready {
        if cfd < 0 {
          server.down := true;
          return;
        }
        Enter(cfd);
        if server.down {
          return;
        }
        ret := ret - 1;
        if ret == 0 {
          return;
        }
      }
      Scan(ready, ret, input, w);
    }
  }
}
