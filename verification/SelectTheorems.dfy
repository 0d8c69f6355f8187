/** The table server keeps its table exact, exits its scan without loss, and agrees with the plain one. */
module SelectTheorems {
  import opened Bytes
  import opened Counting
  import opened Numbers
  import opened SelectServers

  predicate Live(d: int) { d >= 0 }

  /** Slot i holds nothing or descriptor fd + 1 + i, and allset is the listener and the live slots. */
  ghost predicate TableInv(fd: int, t: Table) {
    && fd >= 0 && -1 <= t.maxindex < |t.cfds| && t.core.maxfd == fd + 1 + t.maxindex
    && (forall i :: 0 <= i < |t.cfds| ==> t.cfds[i] == -1 || t.cfds[i] == fd + 1 + i)
    && (forall i :: t.maxindex < i < |t.cfds| ==> t.cfds[i] == -1)
    && (forall d :: d in t.core.allset <==> d == fd || Holds(fd, t.cfds, d))
  }

  predicate Holds(fd: int, cfds: seq<int>, d: int) {
    fd < d <= fd + |cfds| && cfds[d - fd - 1] == d
  }

  // Accept.

  /** The lowest free descriptor is the one the first free slot stands for. */
  lemma AcceptFits(fd: int, t: Table, cfd: int)
    requires TableInv(fd, t) && LowestFree(fd, t.core.allset, cfd)
    ensures FirstFree(t.cfds) == cfd - fd - 1
  {
    var i := FirstFree(t.cfds);
    assert !Holds(fd, t.cfds, fd + 1 + i);
    assert fd + 1 + i !in t.core.allset;
    assert cfd - fd - 1 < i ==> Holds(fd, t.cfds, cfd);
  }

  lemma AcceptKeeps(fd: int, t: Table, cfd: int)
    requires TableInv(fd, t) && LowestFree(fd, t.core.allset, cfd) && FirstFree(t.cfds) < |t.cfds|
    ensures var t' := TableAccept(t, cfd);
      TableInv(fd, t') && t'.core == Accept(t.core, cfd)
  {
    AcceptFits(fd, t, cfd);
    var t' := TableAccept(t, cfd);
    forall d
      ensures d in t'.core.allset <==> d == fd || Holds(fd, t'.cfds, d)
    {
      assert d in t.core.allset <==> d == fd || Holds(fd, t.cfds, d);
    }
  }

  // The scan.

  /** The scan of server2 without its countdown. */
  function FullScan(t: Table, i: nat, w: Wake): Table
    decreases |t.cfds| - i
  {
    if i > t.maxindex || i >= |t.cfds| || t.core.down then t
    else if t.cfds[i] < 0 || t.cfds[i] !in w.ready then FullScan(t, i + 1, w)
    else FullScan(ServeSlot(t, i, w), i + 1, w)
  }

  /** How many slots from i on hold a ready descriptor. */
  function ReadyFrom(cfds: seq<int>, i: nat, ready: set<int>): nat
    decreases |cfds| - i
  {
    if i >= |cfds| then 0
    else (if cfds[i] >= 0 && cfds[i] in ready then 1 else 0) + ReadyFrom(cfds, i + 1, ready)
  }

  lemma {:induction false} NothingLeft(t: Table, i: nat, w: Wake)
    requires ReadyFrom(t.cfds, i, w.ready) == 0
    ensures FullScan(t, i, w) == t
    decreases |t.cfds| - i
  {
    if i < |t.cfds| {
      NothingLeft(t, i + 1, w);
    }
  }

  lemma {:induction false} ReadyFromSame(cfds: seq<int>, cfds': seq<int>, i: nat, ready: set<int>)
    requires |cfds| == |cfds'| && forall k :: i <= k < |cfds| ==> cfds[k] == cfds'[k]
    ensures ReadyFrom(cfds, i, ready) == ReadyFrom(cfds', i, ready)
    decreases |cfds| - i
  {
    if i < |cfds| {
      ReadyFromSame(cfds, cfds', i + 1, ready);
    }
  }

  /** While `ret` is the number of ready slots still ahead, leaving the scan when it reaches zero
      leaves no ready client unserved. */
  lemma {:induction false} CountdownIsFull(t: Table, i: nat, ret: int, w: Wake)
    requires ret == ReadyFrom(t.cfds, i, w.ready)
    ensures CountdownScan(t, i, ret, w) == FullScan(t, i, w)
    decreases |t.cfds| - i
  {
    if i <= t.maxindex && i < |t.cfds| && !t.core.down {
      if t.cfds[i] < 0 || t.cfds[i] !in w.ready {
        CountdownIsFull(t, i + 1, ret, w);
      } else {
        var t' := ServeSlot(t, i, w);
        ReadyFromSame(t.cfds, t'.cfds, i + 1, w.ready);
        if ret - 1 == 0 {
          NothingLeft(t', i + 1, w);
        } else if !t'.core.down {
          CountdownIsFull(t', i + 1, ret - 1, w);
        }
      }
    }
  }

  /** The ready descriptors a table numbered like this one holds from slot i on. */
  lemma {:induction false} ReadyCounted(fd: int, cfds: seq<int>, i: nat, ready: set<int>)
    requires fd >= 0 && i <= |cfds|
    requires forall k :: 0 <= k < |cfds| ==> cfds[k] == -1 || cfds[k] == fd + 1 + k
    requires forall d :: d in ready ==> d > fd + i && Holds(fd, cfds, d)
    ensures ReadyFrom(cfds, i, ready) == |ready|
    decreases |cfds| - i
  {
    if i == |cfds| {
      forall d
        ensures d !in ready
      {
        assert d <= fd + i || !Holds(fd, cfds, d);
      }
      assert ready == {};
    } else {
      var d := fd + 1 + i;
      var rest := ready - {d};
      ReadyCounted(fd, cfds, i + 1, rest);
      ReadyAhead(cfds, i + 1, ready, rest);
      if d in ready {
        assert |ready| == |rest| + 1;
      } else {
        assert rest == ready;
      }
    }
  }

  lemma {:induction false} ReadyAhead(cfds: seq<int>, i: nat, ready: set<int>, rest: set<int>)
    requires forall k :: i <= k < |cfds| ==> (cfds[k] >= 0 && cfds[k] in ready <==> cfds[k] >= 0 && cfds[k] in rest)
    ensures ReadyFrom(cfds, i, ready) == ReadyFrom(cfds, i, rest)
    decreases |cfds| - i
  {
    if i < |cfds| {
      ReadyAhead(cfds, i + 1, ready, rest);
    }
  }

  /** The count select returned, less one for the listener, is the number of ready slots; a
      descriptor accepted in this turn is not among them. */
  lemma CountMatches(fd: int, t: Table, ready: set<int>)
    requires TableInv(fd, t) && ready <= t.core.allset
    ensures ReadyFrom(t.cfds, 0, ready) == |ready| - if fd in ready then 1 else 0
  {
    var clients := ready - {fd};
    ReadyCounted(fd, t.cfds, 0, clients);
    ReadyAhead(t.cfds, 0, ready, clients);
    if fd in ready {
      assert |clients| == |ready| - 1;
    } else {
      assert clients == ready;
    }
  }

  // The two scans.

  lemma ServeSlotKeeps(fd: int, t: Table, i: nat, w: Wake)
    requires TableInv(fd, t) && i < |t.cfds| && t.cfds[i] >= 0
    ensures TableInv(fd, ServeSlot(t, i, w))
  {
    var t' := ServeSlot(t, i, w);
    forall d
      ensures d in t'.core.allset <==> d == fd || Holds(fd, t'.cfds, d)
    {
      assert d in t.core.allset <==> d == fd || Holds(fd, t.cfds, d);
    }
  }

  lemma SlotNumber(fd: int, t: Table, i: nat)
    requires TableInv(fd, t)
    ensures fd >= 0 && -1 <= t.maxindex < |t.cfds| && t.core.maxfd == fd + 1 + t.maxindex
    ensures i <= t.maxindex ==> t.cfds[i] == -1 || t.cfds[i] == fd + 1 + i
  {
  }

  /** Slot by slot and descriptor by descriptor, the scans do the same things in the same order. */
  lemma {:induction false} ScansAgree(fd: int, t: Table, i: nat, w: Wake)
    requires TableInv(fd, t)
    requires forall d :: d in w.ready && d > fd + i ==> Holds(fd, t.cfds, d)
    ensures FullScan(t, i, w).core == PlainScan(t.core, fd + 1 + i, w)
    ensures TableInv(fd, FullScan(t, i, w)) && |FullScan(t, i, w).cfds| == |t.cfds|
    ensures FullScan(t, i, w).maxindex == t.maxindex
    decreases |t.cfds| - i
  {
    hide TableInv;
    SlotNumber(fd, t, i);
    if i <= t.maxindex && !t.core.down {
      var d := fd + 1 + i;
      if t.cfds[i] == d && d in w.ready {
        ServeSlotKeeps(fd, t, i, w);
        ScansAgree(fd, ServeSlot(t, i, w), i + 1, w);
      } else {
        assert t.cfds[i] != d ==> !Holds(fd, t.cfds, d);
        ScansAgree(fd, t, i + 1, w);
      }
    }
  }

  lemma ScanAgrees(fd: int, t: Table, ready: set<int>, w: Wake)
    requires TableInv(fd, t) && w.ready <= t.core.allset
    ensures var t' := CountdownScan(t, 0, |w.ready| - (if fd in w.ready then 1 else 0), w);
      TableInv(fd, t') && |t'.cfds| == |t.cfds| && t'.core == PlainScan(t.core, fd + 1, w)
      && t'.maxindex == t.maxindex
  {
    CountMatches(fd, t, w.ready);
    CountdownIsFull(t, 0, ReadyFrom(t.cfds, 0, w.ready), w);
    ScansAgree(fd, t, 0, w);
  }

  // Turns and runs.

  /** One turn: from agreeing states the servers do the same, as long as a client that connects
      finds a slot. */
  lemma RoundsAgree(fd: int, t: Table, w: Wake)
    requires TableInv(fd, t) && WakeOk(fd, t.core, w)
    requires fd in w.ready && w.cfd >= 0 ==> FirstFree(t.cfds) < |t.cfds|
    ensures TableInv(fd, TableRound(fd, t, w)) && |TableRound(fd, t, w).cfds| == |t.cfds|
    ensures TableRound(fd, t, w).core == PlainRound(fd, t.core, w)
  {
    if !t.core.down {
      if fd !in w.ready {
        ScanAgrees(fd, t, w.ready, w);
      } else if w.cfd >= 0 {
        AcceptKeeps(fd, t, w.cfd);
        ScanAgrees(fd, TableAccept(t, w.cfd), w.ready, w);
      }
    }
  }

  /** The states a server passes through, one turn after another. */
  function PlainRun(fd: int, ws: seq<Wake>): Core {
    if ws == [] then PlainStart(fd)
    else PlainRound(fd, PlainRun(fd, ws[..|ws| - 1]), ws[|ws| - 1])
  }

  function TableRun(fd: int, size: nat, ws: seq<Wake>): Table {
    if ws == [] then TableStart(fd, size)
    else TableRound(fd, TableRun(fd, size, ws[..|ws| - 1]), ws[|ws| - 1])
  }

  /** The kernel keeps its side of every turn of server.c, and every descriptor accept returns can be
      put in an fd_set: it is below `limit`, which is FD_SETSIZE. */
  ghost predicate Kernel(fd: int, limit: int, ws: seq<Wake>) {
    ws == [] ||
    (var w := ws[|ws| - 1];
     && Kernel(fd, limit, ws[..|ws| - 1])
     && WakeOk(fd, PlainRun(fd, ws[..|ws| - 1]), w)
     && (fd in w.ready ==> w.cfd < limit))
  }

  /** A descriptor below the limit has a slot, so lines 68 to 71 of server2.c are not reached. */
  lemma SlotForEveryDescriptor(fd: int, t: Table, limit: int, cfd: int)
    requires TableInv(fd, t) && LowestFree(fd, t.core.allset, cfd)
    requires cfd < limit <= fd + 1 + |t.cfds|
    ensures FirstFree(t.cfds) < |t.cfds| && TableAccept(t, cfd).core == Accept(t.core, cfd)
  {
    AcceptFits(fd, t, cfd);
  }

  /** Whole runs: same descriptors served in the same order with the same bytes, same closes, same
      allset and maxfd, same exits. */
  lemma {:induction false} ServersAgree(fd: int, size: nat, limit: int, ws: seq<Wake>)
    requires fd >= 0 && limit <= fd + 1 + size && Kernel(fd, limit, ws)
    ensures TableRun(fd, size, ws).core == PlainRun(fd, ws)
    ensures TableInv(fd, TableRun(fd, size, ws)) && |TableRun(fd, size, ws).cfds| == size
  {
    if ws != [] {
      var t, w := TableRun(fd, size, ws[..|ws| - 1]), ws[|ws| - 1];
      ServersAgree(fd, size, limit, ws[..|ws| - 1]);
      if fd in w.ready && w.cfd >= 0 {
        SlotForEveryDescriptor(fd, t, limit, w.cfd);
      }
      RoundsAgree(fd, t, w);
    }
  }

  // A table too small for the descriptors there can be.

  /** A client that connects while every slot is taken takes the table server down and not the plain
      one, which accepts it. */
  lemma FullTableDiffers(fd: int, t: Table, w: Wake)
    requires TableInv(fd, t) && WakeOk(fd, t.core, w) && !t.core.down
    requires fd in w.ready && w.cfd >= 0 && FirstFree(t.cfds) == |t.cfds|
    ensures TableRound(fd, t, w) == t.(core := t.core.(down := true))
    ensures t.core.log + [Accepted(w.cfd)] <= PlainRound(fd, t.core, w).log
  {
    PlainScanExtends(Accept(t.core, w.cfd), fd + 1, w);
  }

  /** The next of a row of clients connects, and nobody else is ready. */
  function Connects(fd: int, k: nat): Wake { Wake({fd}, fd + 1 + k, _ => Eof) }

  /** n clients connect, one a turn. */
  function Clients(fd: int, n: nat): seq<Wake> { seq(n, k requires 0 <= k < n => Connects(fd, k)) }

  lemma {:induction false} ClientsConnect(fd: int, n: nat, limit: int)
    requires fd >= 0 && fd + n < limit
    ensures Kernel(fd, limit, Clients(fd, n))
    ensures var c := PlainRun(fd, Clients(fd, n));
      !c.down && forall d :: d in c.allset <==> fd <= d <= fd + n
  {
    if n > 0 {
      assert Clients(fd, n)[..n - 1] == Clients(fd, n - 1);
      ClientsConnect(fd, n - 1, limit);
    }
  }

  lemma FullTable(fd: int, t: Table)
    requires TableInv(fd, t) && forall d :: fd < d <= fd + |t.cfds| ==> d in t.core.allset
    ensures FirstFree(t.cfds) == |t.cfds|
  {
    var i := FirstFree(t.cfds);
    assert i < |t.cfds| ==> Holds(fd, t.cfds, fd + 1 + i);
  }

  /** As many clients as there are slots fill the table. */
  lemma ClientsFill(fd: int, size: nat)
    requires fd >= 0
    ensures var t := TableRun(fd, size, Clients(fd, size));
      && TableInv(fd, t) && !t.core.down && |t.cfds| == size && FirstFree(t.cfds) == size
      && t.core == PlainRun(fd, Clients(fd, size))
  {
    var t := TableRun(fd, size, Clients(fd, size));
    hide TableRun, PlainRun, Kernel, TableInv;
    ClientsConnect(fd, size, fd + 1 + size);
    ServersAgree(fd, size, fd + 1 + size, Clients(fd, size));
    FullTable(fd, t);
  }

  /** One more takes the table server down. */
  lemma OneTooMany(fd: int, size: nat, limit: int)
    requires fd >= 0 && limit > fd + 1 + size
    ensures Kernel(fd, limit, Clients(fd, size + 1))
    ensures TableRun(fd, size, Clients(fd, size + 1)).core.down && !PlainRun(fd, Clients(fd, size + 1)).down
  {
    ClientsFill(fd, size);
    ClientsConnect(fd, size + 1, limit);
    assert Clients(fd, size + 1)[..size] == Clients(fd, size);
    FullTableDiffers(fd, TableRun(fd, size, Clients(fd, size)), Connects(fd, size));
  }

  /** The servers agree on every run if and only if the table has a slot for every descriptor above the
      listener that an fd_set can hold. */
  lemma AgreeExactly(fd: int, size: nat, limit: int)
    requires fd >= 0
    ensures limit <= fd + 1 + size <==>
      forall ws :: Kernel(fd, limit, ws) ==> TableRun(fd, size, ws).core == PlainRun(fd, ws)
  {
    if limit <= fd + 1 + size {
      forall ws | Kernel(fd, limit, ws)
        ensures TableRun(fd, size, ws).core == PlainRun(fd, ws)
      {
        ServersAgree(fd, size, limit, ws);
      }
    } else {
      OneTooMany(fd, size, limit);
    }
  }

  /** Lines 68 to 71 as they stand: with 1024 slots and FD_SETSIZE at 1024 the table never even fills. */
  lemma NeverFullAsShipped(fd: int, ws: seq<Wake>)
    requires 0 <= fd < 1024 && Kernel(fd, 1024, ws)
    ensures FirstFree(TableRun(fd, 1024, ws).cfds) < 1024
  {
    NeverFull(fd, 1024, 1024, ws);
  }

  /** The last slot stands for a descriptor that no fd_set below this limit holds. */
  lemma NeverFull(fd: int, size: nat, limit: int, ws: seq<Wake>)
    requires 0 <= fd < limit <= fd + size && Kernel(fd, limit, ws)
    ensures FirstFree(TableRun(fd, size, ws).cfds) < size
  {
    var t := TableRun(fd, size, ws);
    ServersAgree(fd, size, limit, ws);
    KernelBound(fd, limit, ws);
    assert t.cfds[size - 1] >= 0 ==> Holds(fd, t.cfds, fd + size);
  }

  lemma {:induction false} KernelBound(fd: int, limit: int, ws: seq<Wake>)
    requires fd < limit && Kernel(fd, limit, ws)
    ensures forall d :: d in PlainRun(fd, ws).allset ==> d < limit
  {
    if ws != [] {
      var c, w := PlainRun(fd, ws[..|ws| - 1]), ws[|ws| - 1];
      KernelBound(fd, limit, ws[..|ws| - 1]);
      PlainScanShrinks(c, fd + 1, w);
      PlainScanShrinks(Accept(c, w.cfd), fd + 1, w);
    }
  }

  lemma {:induction false} PlainScanShrinks(c: Core, i: int, w: Wake)
    ensures PlainScan(c, i, w).allset <= c.allset
    decreases c.maxfd - i
  {
    if i <= c.maxfd && !c.down {
      PlainScanShrinks(if i in w.ready then Service(c, i, w.input(i)) else c, i + 1, w);
    }
  }

  lemma {:induction false} PlainScanExtends(c: Core, i: int, w: Wake)
    ensures c.log <= PlainScan(c, i, w).log
    decreases c.maxfd - i
  {
    if i <= c.maxfd && !c.down {
      PlainScanExtends(if i in w.ready then Service(c, i, w.input(i)) else c, i + 1, w);
    }
  }

  // The high-water mark.

  /** Clients connected after a log, and the most there ever were at once. */
  function Held(log: seq<Event>): int {
    if log == [] then 0
    else
      Held(log[..|log| - 1])
      + match log[|log| - 1] case Accepted(_) => 1 case Closed(_) => -1 case Served(_, _, _) => 0
  }

  function Peak(log: seq<Event>): int {
    if log == [] then 0 else Max(Peak(log[..|log| - 1]), Held(log))
  }

  lemma LogExtend(log: seq<Event>, e: Event)
    ensures Held(log + [e]) == Held(log) + (match e case Accepted(_) => 1 case Closed(_) => -1 case Served(_, _, _) => 0)
    ensures Peak(log + [e]) == Max(Peak(log), Held(log + [e]))
  {
    assert (log + [e])[..|log|] == log;
  }

  ghost predicate WaterInv(t: Table) {
    && Held(t.core.log) == Count(t.cfds, Live) <= t.maxindex + 1
    && Peak(t.core.log) == t.maxindex + 1
  }

  lemma {:induction false} CountPrefix(cfds: seq<int>, m: nat)
    requires m <= |cfds|
    requires forall k :: m <= k < |cfds| ==> !Live(cfds[k])
    ensures Count(cfds, Live) <= m
    ensures Count(cfds, Live) == m <==> forall k :: 0 <= k < m ==> Live(cfds[k])
  {
    if m == |cfds| {
      CountBound(cfds, Live);
    } else {
      CountPrefix(cfds[..|cfds| - 1], m);
    }
  }

  lemma AcceptCounts(fd: int, t: Table, i: nat, cfd: int)
    requires TableInv(fd, t) && i == FirstFree(t.cfds) < |t.cfds| && cfd >= 0
    requires Count(t.cfds, Live) <= t.maxindex + 1
    ensures Count(t.cfds[i := cfd], Live) == Count(t.cfds, Live) + 1
    ensures i <= t.maxindex + 1
    ensures i == t.maxindex + 1 ==> Count(t.cfds, Live) == t.maxindex + 1
    ensures i <= t.maxindex ==> Count(t.cfds, Live) < t.maxindex + 1
  {
    CountUpdate(t.cfds, i, cfd, Live);
    CountPrefix(t.cfds, t.maxindex + 1);
    assert t.maxindex + 1 < |t.cfds| ==> t.cfds[t.maxindex + 1] == -1;
  }

  /** First fit: a slot past the mark is taken only when every slot up to the mark is. */
  lemma AcceptWater(fd: int, t: Table, cfd: int)
    requires TableInv(fd, t) && WaterInv(t) && cfd >= 0 && FirstFree(t.cfds) < |t.cfds|
    ensures WaterInv(TableAccept(t, cfd))
  {
    AcceptCounts(fd, t, FirstFree(t.cfds), cfd);
    hide TableInv, Count, Held, Peak;
    LogExtend(t.core.log, Accepted(cfd));
  }

  lemma SlotWater(fd: int, t: Table, i: nat, w: Wake)
    requires TableInv(fd, t) && WaterInv(t) && i < |t.cfds| && t.cfds[i] >= 0
    ensures WaterInv(ServeSlot(t, i, w))
  {
    var d := t.cfds[i];
    match w.input(d)
    case Eof =>
      LogExtend(t.core.log, Closed(d));
      CountUpdate(t.cfds, i, -1, Live);
    case Data(bytes) => LogExtend(t.core.log, Served(d, bytes, Upper(bytes)));
    case Error =>
  }

  lemma {:induction false} ScanWater(fd: int, t: Table, i: nat, ret: int, w: Wake)
    requires TableInv(fd, t) && WaterInv(t)
    ensures WaterInv(CountdownScan(t, i, ret, w))
    decreases |t.cfds| - i
  {
    if i <= t.maxindex && !t.core.down {
      if t.cfds[i] < 0 || t.cfds[i] !in w.ready {
        ScanWater(fd, t, i + 1, ret, w);
      } else {
        var t' := ServeSlot(t, i, w);
        SlotWater(fd, t, i, w);
        ServeSlotKeeps(fd, t, i, w);
        ScanWater(fd, t', i + 1, ret - 1, w);
      }
    }
  }

  /** Every run, whether or not the table has filled: maxindex + 1 is the largest number of clients ever
      held at once, the table is full exactly when as many clients are connected as it has slots, and
      maxfd bounds allset. */
  lemma HighWaterMark(fd: int, size: nat, limit: int, ws: seq<Wake>)
    requires fd >= 0 && Kernel(fd, limit, ws)
    ensures var t := TableRun(fd, size, ws);
      && |t.cfds| == size && t.maxindex + 1 == Peak(t.core.log)
      && (FirstFree(t.cfds) == size <==> Held(t.core.log) == size)
      && forall d :: d in t.core.allset ==> fd <= d <= t.core.maxfd
  {
    var t := TableRun(fd, size, ws);
    RunWater(fd, size, limit, ws);
    CountBound(t.cfds, Live);
  }

  /** Until server2 exits it is in step with server, and its table is exact even after that. */
  lemma {:induction false} RunWater(fd: int, size: nat, limit: int, ws: seq<Wake>)
    requires fd >= 0 && Kernel(fd, limit, ws)
    ensures var t := TableRun(fd, size, ws);
      TableInv(fd, t) && WaterInv(t) && |t.cfds| == size && (t.core.down || t.core == PlainRun(fd, ws))
  {
    if ws == [] {
      CountPrefix(seq(size, _ => -1), 0);
    } else {
      var t, w := TableRun(fd, size, ws[..|ws| - 1]), ws[|ws| - 1];
      RunWater(fd, size, limit, ws[..|ws| - 1]);
      if !t.core.down {
        RoundWater(fd, t, w);
      }
    }
  }

  lemma RoundWater(fd: int, t: Table, w: Wake)
    requires TableInv(fd, t) && WaterInv(t) && WakeOk(fd, t.core, w) && !t.core.down
    ensures var t' := TableRound(fd, t, w);
      TableInv(fd, t') && WaterInv(t') && |t'.cfds| == |t.cfds| && (t'.core.down || t'.core == PlainRound(fd, t.core, w))
  {
    if fd in w.ready && w.cfd >= 0 && FirstFree(t.cfds) == |t.cfds| {
      FullTableDiffers(fd, t, w);
    } else {
      RoundsAgree(fd, t, w);
      FittingWater(fd, t, w);
    }
  }

  lemma FittingWater(fd: int, t: Table, w: Wake)
    requires TableInv(fd, t) && WaterInv(t) && WakeOk(fd, t.core, w)
    requires fd in w.ready && w.cfd >= 0 ==> FirstFree(t.cfds) < |t.cfds|
    ensures WaterInv(TableRound(fd, t, w))
  {
    if !t.core.down {
      if fd !in w.ready {
        ScanWater(fd, t, 0, |w.ready|, w);
      } else if w.cfd >= 0 {
        AcceptWater(fd, t, w.cfd);
        AcceptKeeps(fd, t, w.cfd);
        ScanWater(fd, TableAccept(t, w.cfd), 0, |w.ready| - 1, w);
      }
    }
  }
}
