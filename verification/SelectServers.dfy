/**
  The two select servers, seclect/server.c and seclect/server2.c, one turn of their loop at a
  time.  `fd` is the listener; every number below it stays open and nothing but the
  server opens or closes a descriptor above it, so accept answers with the lowest number above
  `fd` that is not in `allset`.
*/
module SelectServers {
  import opened Bytes
  import opened Numbers

  /** What read answers for one client: bytes, 0, or a negative number. */
  datatype Got = Data(bytes: seq<byte>) | Eof | Error

  /** What the kernel has for one turn: the set select leaves in rset, accept's answer (negative on
      failure), and what read would answer for each descriptor. */
  datatype Wake = Wake(ready: set<int>, cfd: int, input: int -> Got)

  /** What a server does that a client or its terminal can see. */
  datatype Event = Accepted(fd: int) | Served(fd: int, got: seq<byte>, sent: seq<byte>) | Closed(fd: int)

  /** `down`: the server has called sys_err and exited. */
  datatype Core = Core(allset: set<int>, maxfd: int, log: seq<Event>, down: bool)

  function ToUpper(c: byte): byte { if 97 <= c <= 122 then c - 32 else c }

  function Upper(s: seq<byte>): (r: seq<byte>)
    ensures |r| == |s| && forall k :: 0 <= k < |s| ==> r[k] == ToUpper(s[k])
  {
    seq(|s|, k requires 0 <= k < |s| => ToUpper(s[k]))
  }

  /** Every lower-case letter of `got` is its capital in `sent`, and every other byte is itself. */
  ghost predicate UpperOf(got: seq<byte>, sent: seq<byte>) {
    && |sent| == |got|
    && forall k :: 0 <= k < |got| ==> sent[k] == if 97 <= got[k] <= 122 then got[k] - 32 else got[k]
  }

  lemma UpperIs(s: seq<byte>)
    ensures UpperOf(s, Upper(s))
  {
  }

  /** One ready client, lines 65 to 84 of server.c. */
  function Service(c: Core, d: int, got: Got): Core {
    match got
    case Error => c.(down := true)
    case Eof => c.(allset := c.allset - {d}, log := c.log + [Closed(d)])
    case Data(bytes) => c.(log := c.log + [Served(d, bytes, Upper(bytes))])
  }

  /** Lines 42 to 53 of server.c, lines 50 and 72 to 77 of server2.c. */
  function Accept(c: Core, cfd: int): Core {
    c.(allset := c.allset + {cfd}, maxfd := Max(c.maxfd, cfd), log := c.log + [Accepted(cfd)])
  }

  // server.c

  /** The scan of lines 61 to 87. */
  function PlainScan(c: Core, i: int, w: Wake): Core
    decreases c.maxfd - i
  {
    if i > c.maxfd || c.down then c
    else PlainScan(if i in w.ready then Service(c, i, w.input(i)) else c, i + 1, w)
  }

  function PlainRound(fd: int, c: Core, w: Wake): Core {
    if c.down then c
    else if fd !in w.ready then PlainScan(c, fd + 1, w)
    else if w.cfd < 0 then c.(down := true)
    else if |w.ready| == 1 then Accept(c, w.cfd)
    else PlainScan(Accept(c, w.cfd), fd + 1, w)
  }

  function PlainStart(fd: int): Core { Core({fd}, fd, [], false) }

  // server2.c

  datatype Table = Table(core: Core, cfds: seq<int>, maxindex: int)

  /** The loop of lines 60 to 67: the first free slot, or the size of the table. */
  function FirstFree(cfds: seq<int>): (i: nat)
    ensures i <= |cfds|
    ensures i < |cfds| ==> cfds[i] < 0
    ensures forall k :: 0 <= k < i ==> cfds[k] >= 0
  {
    if cfds == [] || cfds[0] < 0 then 0
    else
      var i := FirstFree(cfds[1..]);
      assert forall k :: 0 < k < i + 1 ==> cfds[k] == cfds[1..][k - 1];
      i + 1
  }

  /** The scan of lines 91 to 138, with its countdown. */
  function CountdownScan(t: Table, i: nat, ret: int, w: Wake): Table
    decreases |t.cfds| - i
  {
    if i > t.maxindex || i >= |t.cfds| || t.core.down then t
    else
      var d := t.cfds[i];
      if d < 0 || d !in w.ready then CountdownScan(t, i + 1, ret, w)
      else
        var t' := ServeSlot(t, i, w);
        if t'.core.down || ret - 1 == 0 then t' else CountdownScan(t', i + 1, ret - 1, w)
  }

  function ServeSlot(t: Table, i: nat, w: Wake): Table
    requires i < |t.cfds|
  {
    var d := t.cfds[i];
    t.(core := Service(t.core, d, w.input(d)),
       cfds := if w.input(d).Eof? then t.cfds[i := -1] else t.cfds)
  }

  function TableAccept(t: Table, cfd: int): Table {
    var i := FirstFree(t.cfds);
    if i == |t.cfds| then t.(core := t.core.(down := true))
    else Table(Accept(t.core, cfd), t.cfds[i := cfd], Max(t.maxindex, i))
  }

  function TableRound(fd: int, t: Table, w: Wake): Table {
    if t.core.down then t
    else if fd !in w.ready then CountdownScan(t, 0, |w.ready|, w)
    else if w.cfd < 0 then t.(core := t.core.(down := true))
    else
      var t' := TableAccept(t, w.cfd);
      if t'.core.down || |w.ready| - 1 == 0 then t' else CountdownScan(t', 0, |w.ready| - 1, w)
  }

  function TableStart(fd: int, size: nat): Table {
    Table(Core({fd}, fd, [], false), seq(size, _ => -1), -1)
  }

  // The kernel's side of a turn.

  ghost predicate LowestFree(fd: int, allset: set<int>, cfd: int) {
    && cfd > fd && cfd !in allset
    && forall d :: fd < d < cfd ==> d in allset
  }

  ghost predicate WakeOk(fd: int, c: Core, w: Wake) {
    && w.ready <= c.allset
    && (fd in w.ready && w.cfd >= 0 ==> LowestFree(fd, c.allset, w.cfd))
    && forall d :: w.input(d).Data? ==> w.input(d).bytes != []
  }
}
