/** get_line and do_read of http/myhttpd.c as the code runs them, byte by byte on a socket. */
module HttpCode {
  import opened Bytes
  import opened HttpLines
  import opened HttpRequest

  class Socket {
    var data: seq<byte>   // bytes that have arrived and not been received
    const end: End        // what follows them

    constructor (data: seq<byte>, end: End)
      ensures this.data == data && this.end == end
    {
      this.data, this.end := data, end;
    }

    /** recv(fd, &c, 1, 0): c is left alone when there is no byte. */
    method Recv(c: byte) returns (n: int, c': byte)
      modifies this
      ensures if old(data) == [] then n == (if end == Eof then 0 else -1) && c' == c && data == []
              else n == 1 && c' == old(data)[0] && data == old(data)[1..]
    {
      n, c' := Peek(c);
      if n > 0 {
        data := data[1..];
      }
    }

    /** recv(fd, &c, 1, MSG_PEEK) */
    method Peek(c: byte) returns (n: int, c': byte)
      ensures if data == [] then n == (if end == Eof then 0 else -1) && c' == c
              else n == 1 && c' == data[0]
    {
      if data == [] {
        n, c' := if end == Eof then 0 else -1, c;
      } else {
        n, c' := 1, data[0];
      }
    }
  }

  /** What the calls so far and the reading still to come add up to. */
  ghost predicate Progress(s: seq<byte>, cap: nat, line: seq<byte>, data: seq<byte>, c: byte, n: int) {
    var r := ReadLine(s, cap);
    && |line| <= cap && |data| <= |s| && data == s[|s| - |data|..]
    && if c == LF then
         r == Read(line, |s| - |data|, n <= 0)
       else
         var rest := ReadLine(data, cap - |line|);
         && r == Read(line + rest.line, |s| - |data| + rest.used, rest.blocked)
         && (line != [] ==> n > 0)
  }

  lemma ProgressByte(s: seq<byte>, cap: nat, line: seq<byte>, data: seq<byte>, c: byte, n: int)
    requires Progress(s, cap, line, data, c, n) && c != LF && |line| < cap
    requires data != [] && !IsEnd(data[0])
    ensures Progress(s, cap, line + [data[0]], data[1..], data[0], 1)
  {
    var rest := ReadLine(data[1..], cap - |line| - 1);
    assert line + ([data[0]] + rest.line) == line + [data[0]] + rest.line;
  }

  lemma ProgressEnd(s: seq<byte>, cap: nat, line: seq<byte>, data: seq<byte>, c: byte, n: int, n': int)
    requires Progress(s, cap, line, data, c, n) && c != LF && |line| < cap
    requires data != [] && IsEnd(data[0]) && (n' <= 0 <==> data == [CR])
    ensures Progress(s, cap, line + [LF], data[EndWidth(data)..], LF, n')
  {
  }

  lemma ProgressBlocked(s: seq<byte>, cap: nat, line: seq<byte>, c: byte, n: int, n': int)
    requires Progress(s, cap, line, [], c, n) && c != LF && |line| < cap && n' <= 0
    ensures Progress(s, cap, line, [], LF, n')
  {
    assert line + [] == line;
  }

  lemma ProgressStart(s: seq<byte>, cap: nat)
    ensures Progress(s, cap, [], s, NUL, 1)
  {
    assert [] + ReadLine(s, cap).line == ReadLine(s, cap).line;
  }

  lemma ProgressDone(s: seq<byte>, cap: nat, line: seq<byte>, data: seq<byte>, c: byte, n: int)
    requires Progress(s, cap, line, data, c, n) && (c == LF || |line| == cap > 0)
    ensures |data| <= |s| && data == s[|s| - |data|..]
    ensures ReadLine(s, cap) == Read(line, |s| - |data|, n <= 0)
  {
    assert line + [] == line;
  }

  /** get_line, lines 65 to 105. */
  method GetLine(fd: Socket, buf: array<byte>, size: nat) returns (i: int)
    requires 2 <= size <= buf.Length
    modifies fd, buf
    ensures var r := ReadLine(old(fd.data), size - 1);
      && i == (if r.blocked && fd.end == WouldBlock then -1 else |r.line|)
      && r.used <= |old(fd.data)| && fd.data == old(fd.data)[r.used..]
      && |r.line| < size && buf[..|r.line|] == r.line && buf[|r.line|] == NUL
      && forall k :: |r.line| < k < buf.Length ==> buf[k] == old(buf[k])
  {
    hide Progress, ReadLine;
    ghost var s, cap := fd.data, size - 1;
    i := 0;
    var c: byte := NUL;
    var n: int := 1;
    ProgressStart(s, cap);
    while i < size - 1 && c != LF
      invariant 0 <= i <= size - 1
      invariant Progress(s, cap, buf[..i], fd.data, c, n)
      invariant n <= 0 ==> n == if fd.end == Eof then 0 else -1
      invariant forall k :: i <= k < buf.Length ==> buf[k] == old(buf[k])
      decreases |fd.data|, if c == LF then 0 else 1
    {
      ghost var data, line, c0, n0 := fd.data, buf[..i], c, n;
      n, c := fd.Recv(c);
      if n > 0 {
        if c == CR {
          n, c := fd.Peek(c);
          if n > 0 && c == LF {
            var _, d := fd.Recv(c);
            c := d;
          } else {
            c := LF;
          }
        }
        buf[i] := c;
        i := i + 1;
        assert buf[..i] == line + [c];
        if IsEnd(data[0]) {
          ProgressEnd(s, cap, line, data, c0, n0, n);
        } else {
          ProgressByte(s, cap, line, data, c0, n0);
        }
      } else {
        c := LF;
        ProgressBlocked(s, cap, line, c0, n0, n);
      }
    }
    ProgressDone(s, cap, buf[..i], fd.data, c, n);
    buf[i] := NUL;
    if n == -1 {
      i := n;
    }
  }

  /** One turn of the header loop. */
  lemma DrainTurn(s: seq<byte>, end: End, cap: nat)
    requires cap >= 1
    ensures var r := ReadLine(s, cap);
      r.used <= |s| &&
      if Stops(r, end) then Drain(s, end, cap) == Stopped(r.used)
      else if r.line == [] then s == [] && Drain(s, end, cap) == Spins
      else r.used > 0 && Drain(s, end, cap) == Skip(r.used, Drain(s[r.used..], end, cap))
  {
    ReadLineUses(s, cap);
    SpinsForEver(cap);
  }

  /** The header loop, lines 252 to 261.  It makes no progress once get_line returns 0 at EOF without a
      line; the method reports that instead of turning for ever (SpinsForEver). */
  method DrainHeaders(fd: Socket, size: nat) returns (stuck: bool)
    requires size >= 2
    modifies fd
    ensures match Drain(old(fd.data), fd.end, size - 1)
      case Stopped(used) => !stuck && used <= |old(fd.data)| && fd.data == old(fd.data)[used..]
      case Spins => stuck && fd.data == []
  {
    hide ReadLine, Drain;
    ghost var rest, cap := fd.data, size - 1;
    var stopped := false;
    stuck := false;
    while !stopped && !stuck
      invariant |fd.data| <= |rest| && fd.data == rest[|rest| - |fd.data|..]
      invariant !stopped && !stuck ==>
        Drain(rest, fd.end, cap) == Skip(|rest| - |fd.data|, Drain(fd.data, fd.end, cap))
      invariant stopped ==> Drain(rest, fd.end, cap) == Stopped(|rest| - |fd.data|)
      invariant stuck ==> Drain(rest, fd.end, cap) == Spins && fd.data == []
      invariant !(stopped && stuck)
      decreases |fd.data|, if stopped || stuck then 0 else 1
    {
      ghost var data := fd.data;
      var buf := new byte[size](_ => 0);
      var len := GetLine(fd, buf, size);
      DrainTurn(data, fd.end, cap);
      ghost var turn := ReadLine(data, cap);
      assert turn.line != [] ==> buf[0] == buf[..|turn.line|][0] == turn.line[0];
      if buf[0] == LF || -1 == len {
        stopped := true;
      } else if len == 0 {
        stuck := true;
      }
    }
  }

  /** HandleRequest, one call after the other. */
  lemma RequestSteps(s: seq<byte>, end: End, cap: nat)
    requires cap >= 1
    ensures var r := ReadLine(s, cap);
      && r.used <= |s|
      && if Returned(r, end) == 0 then HandleRequest(s, end, cap) == (ClosedFd, r.used)
         else match Drain(s[r.used..], end, cap)
           case Stopped(k) =>
             && HandleRequest(s, end, cap) == (Handled(Scan(r.line), Served(Scan(r.line))), r.used + k)
             && (r.used + k <= |s| ==> s[r.used..][k..] == s[r.used + k..])
           case Spins => HandleRequest(s, end, cap) == (Spinning, |s|) && s[|s|..] == []
  {
    ReadLineUses(s, cap);
    hide ReadLine, Drain, Scan, Served;
  }

  /** The request line, lines 238, 239 and 247 to 248; the fields matter only if there is one. */
  method ReadFields(fd: Socket, size: nat) returns (len: int, fields: Fields)
    requires size >= 2
    modifies fd
    ensures var r := ReadLine(old(fd.data), size - 1);
      && len == Returned(r, fd.end) && fields == Scan(r.line)
      && r.used <= |old(fd.data)| && fd.data == old(fd.data)[r.used..]
  {
    hide ReadLine, Scan;
    ghost var r := ReadLine(fd.data, size - 1);
    var line := new byte[size](_ => 0);
    len := GetLine(fd, line, size);
    ScanBuffer(r.line, line[..]);
    fields := Scan(line[..]);
  }

  /** do_read, lines 235 to 270. */
  method DoRead(fd: Socket, size: nat) returns (o: Outcome)
    requires size >= 2
    modifies fd
    ensures var (o', used) := HandleRequest(old(fd.data), fd.end, size - 1);
      o == o' && used <= |old(fd.data)| && fd.data == old(fd.data)[used..]
    ensures OutcomeOk(old(fd.data), fd.end, size - 1, o)
  {
    hide HandleRequest, ReadLine, Drain, Scan, Served, OutcomeOk, Returned;
    ghost var s := fd.data;
    RequestSteps(s, fd.end, size - 1);
    var len, fields := ReadFields(fd, size);
    if len == 0 {
      o := ClosedFd;
    } else {
      var stuck := DrainHeaders(fd, size);
      o := if stuck then Spinning else Handled(fields, Served(fields));
    }
    OutcomeInShort(s, fd.end, size - 1);
  }

  /** The bytes of the buffer after the terminating NUL do not matter to sscanf. */
  lemma {:induction false} CStringCut(line: seq<byte>, rest: seq<byte>)
    requires rest != [] && rest[0] == NUL
    ensures CString(line + rest) == CString(line)
  {
    if line == [] {
      assert line + rest == rest;
    } else if line[0] != NUL {
      assert (line + rest)[1..] == line[1..] + rest;
      CStringCut(line[1..], rest);
    }
  }

  lemma ScanBuffer(line: seq<byte>, buf: seq<byte>)
    requires |line| < |buf| && buf[..|line|] == line && buf[|line|] == NUL
    ensures Scan(buf) == Scan(line)
  {
    assert buf == line + buf[|line|..];
    CStringCut(line, buf[|line|..]);
  }
}
