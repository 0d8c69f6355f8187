/** What a turn of the servers does for each ready client, and the stream each client gets back. */
module SelectStreams {
  import opened Bytes
  import opened Numbers
  import opened SelectServers
  import opened SelectTheorems

  function FdOf(e: Event): int {
    match e
    case Accepted(d) => d
    case Served(d, _, _) => d
    case Closed(d) => d
  }

  /** The event that what read answers for its descriptor calls for. */
  ghost predicate Answered(w: Wake, e: Event) {
    match e
    case Served(d, got, sent) => d in w.ready && w.input(d) == Data(got) && UpperOf(got, sent)
    case Closed(d) => d in w.ready && w.input(d) == Eof
    case Accepted(_) => false
  }

  /** No ready descriptor of this range fails to be read. */
  ghost predicate NoError(w: Wake, from: int, to: int) {
    forall x :: x in w.ready && from <= x <= to ==> w.input(x) != Error
  }

  /** One event, the one called for, for each ready descriptor of the range with no failure up to it, in
      ascending order, and no other. */
  ghost predicate ScanLog(w: Wake, from: int, to: int, evs: seq<Event>) {
    && (forall k :: 0 <= k < |evs| ==>
          Answered(w, evs[k]) && from <= FdOf(evs[k]) <= to && NoError(w, from, FdOf(evs[k])))
    && (forall j, k :: 0 <= j < k < |evs| ==> FdOf(evs[j]) < FdOf(evs[k]))
    && (forall d :: d in w.ready && from <= d <= to && NoError(w, from, d) ==>
          exists k :: 0 <= k < |evs| && FdOf(evs[k]) == d)
  }

  /** The descriptors a scan closes. */
  ghost predicate Closes(w: Wake, from: int, to: int, d: int) {
    d in w.ready && from <= d <= to && NoError(w, from, d) && w.input(d) == Eof
  }

  /** What a scan over a range makes of c. */
  ghost predicate Scanned(c: Core, c': Core, w: Wake, from: int, evs: seq<Event>) {
    && c'.log == c.log + evs && ScanLog(w, from, c.maxfd, evs)
    && c'.maxfd == c.maxfd && (c'.down <==> !NoError(w, from, c.maxfd))
    && forall d :: d in c'.allset <==> d in c.allset && !Closes(w, from, c.maxfd, d)
  }

  lemma NoErrorFrom(w: Wake, i: int, to: int)
    requires i <= to
    ensures NoError(w, i, to) <==> (i in w.ready ==> w.input(i) != Error) && NoError(w, i + 1, to)
  {
  }

  lemma ScanLogSkip(w: Wake, i: int, to: int, evs: seq<Event>)
    requires i !in w.ready && ScanLog(w, i + 1, to, evs)
    ensures ScanLog(w, i, to, evs)
  {
    forall k | 0 <= k < |evs|
      ensures NoError(w, i, FdOf(evs[k]))
    {
      NoErrorFrom(w, i, FdOf(evs[k]));
    }
    forall d | d in w.ready && i <= d <= to && NoError(w, i, d)
      ensures exists k :: 0 <= k < |evs| && FdOf(evs[k]) == d
    {
      NoErrorFrom(w, i, d);
    }
  }

  lemma ScanLogNext(w: Wake, e: Event, to: int, evs: seq<Event>)
    requires FdOf(e) <= to && Answered(w, e) && ScanLog(w, FdOf(e) + 1, to, evs)
    ensures ScanLog(w, FdOf(e), to, [e] + evs)
  {
    var i, all := FdOf(e), [e] + evs;
    assert forall k :: 0 < k < |all| ==> all[k] == evs[k - 1];
    forall k | 0 <= k < |all|
      ensures NoError(w, i, FdOf(all[k])) && Answered(w, all[k]) && i <= FdOf(all[k]) <= to
      ensures k > 0 ==> i < FdOf(all[k])
    {
      NoErrorFrom(w, i, FdOf(all[k]));
    }
    forall d | d in w.ready && i <= d <= to && NoError(w, i, d)
      ensures exists k :: 0 <= k < |all| && FdOf(all[k]) == d
    {
      LoggedNext(w, e, to, evs, d);
    }
    hide Answered, NoError;
  }

  lemma LoggedNext(w: Wake, e: Event, to: int, evs: seq<Event>, d: int)
    requires ScanLog(w, FdOf(e) + 1, to, evs) && d in w.ready && FdOf(e) <= d <= to && NoError(w, FdOf(e), d)
    ensures exists k :: 0 <= k < |[e] + evs| && FdOf(([e] + evs)[k]) == d
  {
    NoErrorFrom(w, FdOf(e), d);
    if d == FdOf(e) {
      assert FdOf(([e] + evs)[0]) == d;
    } else {
      var k :| 0 <= k < |evs| && FdOf(evs[k]) == d;
      assert ([e] + evs)[k + 1] == evs[k];
    }
  }

  lemma ClosesFrom(w: Wake, i: int, to: int, d: int)
    requires i <= to && (i in w.ready ==> w.input(i) != Error)
    ensures Closes(w, i, to, d) <==> (d == i && i in w.ready && w.input(i) == Eof) || Closes(w, i + 1, to, d)
  {
    if i <= d {
      NoErrorFrom(w, i, d);
    }
  }

  lemma ScannedSkip(c: Core, c': Core, w: Wake, i: int, evs: seq<Event>)
    requires i <= c.maxfd && i !in w.ready && Scanned(c, c', w, i + 1, evs)
    ensures Scanned(c, c', w, i, evs)
  {
    NoErrorFrom(w, i, c.maxfd);
    ScanLogSkip(w, i, c.maxfd, evs);
    forall d
      ensures d in c'.allset <==> d in c.allset && !Closes(w, i, c.maxfd, d)
    {
      ClosesFrom(w, i, c.maxfd, d);
    }
  }

  lemma ScannedNone(c: Core, w: Wake, i: int)
    requires i > c.maxfd && !c.down
    ensures Scanned(c, c, w, i, [])
  {
    assert c.log + [] == c.log;
  }

  lemma {:induction false} ScanLogged(c: Core, i: int, w: Wake) returns (evs: seq<Event>)
    requires !c.down
    ensures Scanned(c, PlainScan(c, i, w), w, i, evs)
    decreases c.maxfd - i
  {
    hide Scanned;
    evs := [];
    if i > c.maxfd {
      ScannedNone(c, w, i);
    } else if i !in w.ready {
      evs := ScanLogged(c, i + 1, w);
      ScannedSkip(c, PlainScan(c, i, w), w, i, evs);
    } else {
      evs := ReadyLogged(c, i, w);
    }
  }

  lemma ClosesNext(allset: set<int>, allset1: set<int>, allset': set<int>, w: Wake, i: int, to: int)
    requires i <= to && i in w.ready && w.input(i) != Error
    requires allset1 == (if w.input(i) == Eof then allset - {i} else allset)
    requires forall d :: d in allset' <==> d in allset1 && !Closes(w, i + 1, to, d)
    ensures forall d :: d in allset' <==> d in allset && !Closes(w, i, to, d)
  {
    forall d
      ensures d in allset' <==> d in allset && !Closes(w, i, to, d)
    {
      ClosesFrom(w, i, to, d);
    }
  }

  lemma OneMore(log: seq<Event>, e: Event, evs: seq<Event>)
    ensures log + [e] + evs == log + ([e] + evs)
  {
  }

  /** One event more, and the scan of the rest of the range. */
  lemma ScannedNext(c: Core, c1: Core, c': Core, w: Wake, e: Event, evs: seq<Event>)
    requires var i := FdOf(e);
      && i <= c.maxfd && Answered(w, e) && w.input(i) != Error
      && c1.log == c.log + [e] && c1.maxfd == c.maxfd
      && c1.allset == (if w.input(i) == Eof then c.allset - {i} else c.allset)
      && Scanned(c1, c', w, i + 1, evs)
    ensures Scanned(c, c', w, FdOf(e), [e] + evs)
  {
    var i := FdOf(e);
    NoErrorFrom(w, i, c.maxfd);
    hide ScanLog, NoError, Closes;
    ScanLogNext(w, e, c.maxfd, evs);
    ClosesNext(c.allset, c1.allset, c'.allset, w, i, c.maxfd);
    OneMore(c.log, e, evs);
  }

  lemma ErrorLogged(c: Core, c': Core, i: int, w: Wake)
    requires !c.down && i <= c.maxfd && i in w.ready && w.input(i) == Error && c' == c.(down := true)
    ensures Scanned(c, c', w, i, [])
  {
    assert c.log + [] == c.log;
  }

  lemma {:induction false} ReadyLogged(c: Core, i: int, w: Wake) returns (evs: seq<Event>)
    requires !c.down && i <= c.maxfd && i in w.ready
    ensures Scanned(c, PlainScan(c, i, w), w, i, evs)
    decreases c.maxfd - i, 0
  {
    hide Scanned;
    var c1 := Service(c, i, w.input(i));
    assert PlainScan(c, i, w) == PlainScan(c1, i + 1, w);
    if w.input(i) == Error {
      evs := [];
      ErrorLogged(c, c1, i, w);
    } else {
      var e := if w.input(i) == Eof then Closed(i) else Served(i, w.input(i).bytes, Upper(w.input(i).bytes));
      if w.input(i).Data? {
        UpperIs(w.input(i).bytes);
      }
      evs := ScanLogged(c1, i + 1, w);
      ScannedNext(c, c1, PlainScan(c1, i + 1, w), w, e, evs);
      evs := [e] + evs;
    }
  }

  // A turn.

  /** One turn of server.c: it exits when accept fails; otherwise it takes in the client that connects,
      if one does, and answers the ready clients up to the first that fails, which ends it. */
  ghost predicate Turned(fd: int, c: Core, c': Core, w: Wake, evs: seq<Event>) {
    if fd !in w.ready then Scanned(c, c', w, fd + 1, evs)
    else if w.cfd < 0 then c' == c.(down := true) && evs == []
    else
      var maxfd := if c.maxfd < w.cfd then w.cfd else c.maxfd;
      Scanned(Core(c.allset + {w.cfd}, maxfd, c.log + [Accepted(w.cfd)], c.down), c', w, fd + 1, evs)
  }

  lemma OnlyListener(fd: int, c: Core, w: Wake)
    requires fd in w.ready && |w.ready| == 1 && !c.down
    ensures Scanned(c, c, w, fd + 1, [])
  {
    assert |w.ready - {fd}| == 0;
    assert forall d :: d in w.ready ==> d == fd || d in w.ready - {fd};
    assert c.log + [] == c.log;
  }

  lemma TurnLogged(fd: int, c: Core, w: Wake) returns (evs: seq<Event>)
    requires !c.down
    ensures Turned(fd, c, PlainRound(fd, c, w), w, evs)
  {
    hide Scanned;
    evs := [];
    if fd !in w.ready {
      evs := ScanLogged(c, fd + 1, w);
    } else if w.cfd >= 0 {
      if |w.ready| == 1 {
        OnlyListener(fd, Accept(c, w.cfd), w);
      } else {
        evs := ScanLogged(Accept(c, w.cfd), fd + 1, w);
      }
    }
  }

  /** A table in order, up, the kernel's side kept, and a slot for a client that connects. */
  ghost predicate CanTurn(fd: int, t: Table, w: Wake) {
    && TableInv(fd, t) && WakeOk(fd, t.core, w) && !t.core.down
    && (fd in w.ready && w.cfd >= 0 ==> FirstFree(t.cfds) < |t.cfds|)
  }

  /** The same of server2, as long as a client that connects finds a slot. */
  lemma TableTurnLogged(fd: int, t: Table, w: Wake) returns (evs: seq<Event>)
    requires CanTurn(fd, t, w)
    ensures Turned(fd, t.core, TableRound(fd, t, w).core, w, evs)
  {
    evs := TurnLogged(fd, t.core, w);
    RoundsAgree(fd, t, w);
  }

  lemma TableLogs(fd: int, t: Table, w: Wake)
    ensures CanTurn(fd, t, w) ==> exists evs :: Turned(fd, t.core, TableRound(fd, t, w).core, w, evs)
  {
    if CanTurn(fd, t, w) {
      var evs := TableTurnLogged(fd, t, w);
    }
  }

  // What a client gets back.

  /** The bytes written to the connection that descriptor d now names. */
  function Sent(log: seq<Event>, d: int): seq<byte> {
    if log == [] then []
    else match log[|log| - 1]
      case Accepted(x) => if x == d then [] else Sent(log[..|log| - 1], d)
      case Served(x, _, sent) => Sent(log[..|log| - 1], d) + if x == d then sent else []
      case Closed(_) => Sent(log[..|log| - 1], d)
  }

  /** No call of a turn fails. */
  ghost predicate Succeeds(fd: int, w: Wake) {
    (fd in w.ready ==> w.cfd >= 0) && forall x :: x in w.ready && x > fd ==> w.input(x) != Error
  }

  ghost predicate Up(fd: int, ws: seq<Wake>) {
    ws == [] || (Up(fd, ws[..|ws| - 1]) && Succeeds(fd, ws[|ws| - 1]))
  }

  /** The bytes one turn reads from d. */
  ghost function Read(fd: int, w: Wake, d: int): seq<byte> {
    if d in w.ready && d > fd && NoError(w, fd + 1, d) && w.input(d).Data? then w.input(d).bytes else []
  }

  /** The bytes the kernel has delivered to the connection that descriptor d now names, from the wakes
      alone: those of each turn in which d is ready and no ready client before it fails, since d was
      accepted last. */
  ghost function Delivered(fd: int, ws: seq<Wake>, d: int): seq<byte> {
    if ws == [] then []
    else
      var w, before := ws[|ws| - 1], ws[..|ws| - 1];
      if !Up(fd, before) || (fd in w.ready && w.cfd < 0) then Delivered(fd, before, d)
      else (if fd in w.ready && w.cfd == d then [] else Delivered(fd, before, d)) + Read(fd, w, d)
  }

  lemma SentNext(log: seq<Event>, e: Event, d: int)
    ensures Sent(log + [e], d) == match e
      case Accepted(x) => if x == d then [] else Sent(log, d)
      case Served(x, _, sent) => Sent(log, d) + if x == d then sent else []
      case Closed(_) => Sent(log, d)
  {
    assert (log + [e])[..|log|] == log;
  }

  lemma {:induction false} SentOthers(log: seq<Event>, evs: seq<Event>, d: int)
    requires forall k :: 0 <= k < |evs| ==> FdOf(evs[k]) != d
    ensures Sent(log + evs, d) == Sent(log, d)
  {
    if evs == [] {
      assert log + evs == log;
    } else {
      var n := |evs| - 1;
      SentOthers(log, evs[..n], d);
      assert log + evs == log + evs[..n] + [evs[n]];
      SentNext(log + evs[..n], evs[n], d);
    }
  }

  lemma SentOnce(log: seq<Event>, a: seq<Event>, e: Event, b: seq<Event>, d: int)
    requires forall j :: 0 <= j < |a| ==> FdOf(a[j]) != d
    requires forall j :: 0 <= j < |b| ==> FdOf(b[j]) != d
    ensures Sent(log + (a + [e] + b), d) == Sent(log + a + [e], d) && Sent(log + a, d) == Sent(log, d)
  {
    hide Sent;
    SentOthers(log, a, d);
    SentOthers(log + a + [e], b, d);
    assert log + (a + [e] + b) == log + a + [e] + b;
  }

  /** What a scan adds to what d has been sent. */
  lemma SentByScan(log: seq<Event>, evs: seq<Event>, w: Wake, fd: int, to: int, d: int) returns (sent: seq<byte>)
    requires ScanLog(w, fd + 1, to, evs) && (d in w.ready ==> d <= to)
    ensures UpperOf(Read(fd, w, d), sent) && Sent(log + evs, d) == Sent(log, d) + sent
  {
    sent := [];
    if k: nat :| k < |evs| && FdOf(evs[k]) == d {
      assert forall j :: 0 <= j < |evs| && j != k ==> FdOf(evs[j]) != d;
      assert Answered(w, evs[k]) && NoError(w, fd + 1, d) && fd + 1 <= d;
      hide ScanLog, NoError, Sent;
      assert evs == evs[..k] + [evs[k]] + evs[k + 1..];
      SentOnce(log, evs[..k], evs[k], evs[k + 1..], d);
      SentNext(log + evs[..k], evs[k], d);
      if evs[k].Served? {
        sent := evs[k].sent;
      }
    } else {
      SentOthers(log, evs, d);
    }
  }

  ghost predicate StreamInv(fd: int, ws: seq<Wake>, c: Core) {
    && (c.down <==> !Up(fd, ws))
    && (forall d :: d in c.allset ==> fd <= d <= c.maxfd)
    && forall d :: UpperOf(Delivered(fd, ws, d), Sent(c.log, d))
  }

  lemma UpperConcat(a: seq<byte>, b: seq<byte>, a': seq<byte>, b': seq<byte>)
    requires UpperOf(a, a') && UpperOf(b, b')
    ensures UpperOf(a + b, a' + b')
  {
  }

  lemma SentByTurn(fd: int, ws: seq<Wake>, c: Core, w: Wake, evs: seq<Event>, d: int)
    requires StreamInv(fd, ws, c) && !c.down && WakeOk(fd, c, w)
    requires Turned(fd, c, PlainRound(fd, c, w), w, evs)
    ensures UpperOf(Delivered(fd, ws + [w], d), Sent(PlainRound(fd, c, w).log, d))
  {
    assert (ws + [w])[..|ws|] == ws;
    assert d in w.ready ==> d in c.allset;
    if fd !in w.ready {
      var sent := SentByScan(c.log, evs, w, fd, c.maxfd, d);
      UpperConcat(Delivered(fd, ws, d), Read(fd, w, d), Sent(c.log, d), sent);
    } else if w.cfd >= 0 {
      var log := c.log + [Accepted(w.cfd)];
      var sent := SentByScan(log, evs, w, fd, if c.maxfd < w.cfd then w.cfd else c.maxfd, d);
      SentNext(c.log, Accepted(w.cfd), d);
      UpperConcat(if w.cfd == d then [] else Delivered(fd, ws, d), Read(fd, w, d), Sent(log, d), sent);
    }
  }

  /** What a turn makes of the sets and of the exit. */
  lemma TurnBounds(fd: int, c: Core, c': Core, w: Wake, evs: seq<Event>)
    requires Turned(fd, c, c', w, evs) && !c.down && WakeOk(fd, c, w)
    requires forall d :: d in c.allset ==> fd <= d <= c.maxfd
    ensures c'.down <==> !Succeeds(fd, w)
    ensures forall d :: d in c'.allset ==> fd <= d <= c'.maxfd
  {
    hide ScanLog, Closes;
  }

  lemma TurnKeeps(fd: int, ws: seq<Wake>, c: Core, w: Wake)
    requires StreamInv(fd, ws, c) && !c.down && WakeOk(fd, c, w)
    ensures StreamInv(fd, ws + [w], PlainRound(fd, c, w))
  {
    hide PlainRound, Turned, UpperOf, WakeOk, Sent, Delivered, Succeeds;
    var evs := TurnLogged(fd, c, w);
    forall d
      ensures UpperOf(Delivered(fd, ws + [w], d), Sent(PlainRound(fd, c, w).log, d))
    {
      SentByTurn(fd, ws, c, w, evs, d);
    }
    TurnBounds(fd, c, PlainRound(fd, c, w), w, evs);
    assert (ws + [w])[..|ws|] == ws;
  }

  lemma DownStays(fd: int, ws: seq<Wake>, c: Core, w: Wake)
    requires StreamInv(fd, ws, c) && c.down
    ensures StreamInv(fd, ws + [w], c)
  {
    assert (ws + [w])[..|ws|] == ws;
    hide UpperOf;
    assert forall d :: Delivered(fd, ws + [w], d) == Delivered(fd, ws, d);
  }

  lemma {:induction false} RunStreams(fd: int, limit: int, ws: seq<Wake>)
    requires Kernel(fd, limit, ws)
    ensures StreamInv(fd, ws, PlainRun(fd, ws))
  {
    hide StreamInv;
    if ws == [] {
      assert StreamInv(fd, [], PlainStart(fd)) by {
        StreamStart(fd);
      }
    } else {
      var c, w, before := PlainRun(fd, ws[..|ws| - 1]), ws[|ws| - 1], ws[..|ws| - 1];
      RunStreams(fd, limit, before);
      assert ws == before + [w];
      if c.down {
        DownStays(fd, before, c, w);
      } else {
        TurnKeeps(fd, before, c, w);
      }
    }
  }

  lemma StreamStart(fd: int)
    ensures StreamInv(fd, [], PlainStart(fd))
  {
  }

  /** Every client is sent the upper case of the bytes delivered to it, as one stream, however the reads
      cut it up and however turns interleave clients; the server is down exactly when a call has failed. */
  lemma ClientsGetUpperCase(fd: int, limit: int, ws: seq<Wake>, d: int)
    requires Kernel(fd, limit, ws)
    ensures var got, sent := Delivered(fd, ws, d), Sent(PlainRun(fd, ws).log, d);
      && |sent| == |got|
      && forall k :: 0 <= k < |got| ==> sent[k] == if 97 <= got[k] <= 122 then got[k] - 32 else got[k]
    ensures PlainRun(fd, ws).down <==> !Up(fd, ws)
  {
    RunStreams(fd, limit, ws);
  }
}
