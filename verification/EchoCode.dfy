/**
  The code of ttcp/comm/TcpStream.cc and of the loop in ttcp/echo.cc, in place on a stream.
  What the kernel grants each system call is an arbitrary function of the call's number.
*/
module EchoCode {
  import opened Bytes
  import opened Options

  class TcpStream {
    var incoming: seq<byte>   // what the peer sends before it closes, less what was received
    var outgoing: seq<byte>   // what was handed to the peer
    var calls: nat            // system calls made so far
    ghost var sends: set<nat> // which of them were sends
    const grant: nat -> int   // the kernel's answers; a negative one is an error

    constructor (incoming: seq<byte>, grant: nat -> int)
      ensures this.incoming == incoming && outgoing == [] && calls == 0 && this.grant == grant && sends == {} && Valid()
    {
      this.incoming, outgoing, calls, this.grant := incoming, [], 0, grant;
      sends := {};
    }

    ghost predicate Valid()
      reads this
    {
      forall k :: k in sends ==> k < calls
    }

    /** No call numbered from `a` up to `b` was refused. */
    ghost predicate Granted(a: nat, b: nat) {
      forall k :: a <= k < b ==> grant(k) > 0
    }

    /** Socket::send: some of the bytes, or what the kernel answers. */
    method Send(data: seq<byte>) returns (nw: int)
      modifies this`outgoing, this`calls, this`sends
      ensures calls == old(calls) + 1 && sends == old(sends) + {old(calls)}
      ensures nw <= |data| && (nw > 0 <==> grant(old(calls)) > 0 && data != [])
      ensures outgoing == old(outgoing) + if nw > 0 then data[..nw] else []
    {
      var g := grant(calls);
      sends := sends + {calls};
      calls := calls + 1;
      nw := if g > |data| then |data| else g;
      if nw > 0 {
        outgoing := outgoing + data[..nw];
      }
    }

    /** receiveSome: up to `len` bytes, 0 when the peer has closed, -1 on an error. */
    method ReceiveSome(buf: array<byte>, len: nat) returns (nr: int)
      requires 1 <= len <= buf.Length
      modifies this`incoming, this`calls, buf
      ensures calls == old(calls) + 1
      ensures -1 <= nr <= len
      ensures nr < 0 <==> grant(old(calls)) <= 0
      ensures nr == 0 <==> grant(old(calls)) > 0 && old(incoming) == []
      ensures nr <= 0 ==> incoming == old(incoming)
      ensures nr > 0 ==> old(incoming) == buf[..nr] + incoming
    {
      var g := grant(calls);
      calls := calls + 1;
      if g <= 0 {
        return -1;
      }
      var n := if g < len then g else len;
      n := if n < |incoming| then n else |incoming|;
      forall k | 0 <= k < n {
        buf[k] := incoming[k];
      }
      assert buf[..n] == incoming[..n];
      incoming := incoming[n..];
      nr := n;
    }

    /** receiveAll: with MSG_WAITALL, `len` bytes unless the peer closes first, a signal interrupts the
        call, or it fails.  `interrupted` says how many bytes have come when a signal arrives, if one
        does; a signal before the first byte is a failure. */
    method ReceiveAll(buf: array<byte>, len: nat, interrupted: Option<nat>) returns (nr: int)
      requires len <= buf.Length
      modifies this`incoming, this`calls, buf
      ensures calls == old(calls) + 1
      ensures nr < 0 <==> grant(old(calls)) <= 0
      ensures nr < 0 ==> incoming == old(incoming)
      ensures nr >= 0 ==> nr <= len && old(incoming) == buf[..nr] + incoming
      ensures nr >= 0 ==> nr == len || incoming == [] || interrupted == Some(nr)
      ensures nr >= 0 && interrupted == None ==> nr == len || incoming == []
    {
      var g := grant(calls);
      calls := calls + 1;
      if g <= 0 {
        return -1;
      }
      var n := if len < |incoming| then len else |incoming|;
      if interrupted.Some? && 0 < interrupted.value < n {
        n := interrupted.value;
      }
      forall k | 0 <= k < n {
        buf[k] := incoming[k];
      }
      assert buf[..n] == incoming[..n];
      incoming := incoming[n..];
      nr := n;
    }

    /** sendAll: the whole of buf[..len], or the prefix that went out before a refusal. */
    method SendAll(buf: array<byte>, len: nat) returns (written: nat)
      requires len <= buf.Length
      modifies this`outgoing, this`calls, this`sends
      ensures written <= len && calls >= old(calls)
      ensures forall k: nat :: k in sends <==> k in old(sends) || old(calls) <= k < calls
      ensures outgoing == old(outgoing) + buf[..written]
      ensures written == len <==> Granted(old(calls), calls)
      ensures written < len ==> calls > old(calls) && Granted(old(calls), calls - 1)
    {
      written := 0;
      while written < len
        invariant written <= len && calls >= old(calls)
        invariant forall k: nat :: k in sends <==> k in old(sends) || old(calls) <= k < calls
        invariant outgoing == old(outgoing) + buf[..written]
        invariant Granted(old(calls), calls)
      {
        var nw := Send(buf[written..len]);
        if nw > 0 {
          assert buf[..written] + buf[written..len][..nw] == buf[..written + nw];
          written := written + nw;
        } else {
          break;
        }
      }
    }

    /** The loop of one connection, echo.cc lines 36 to 45, with a buffer of any size. */
    method Serve(size: nat) returns (ghost taken: seq<byte>, ghost echoed: seq<byte>)
      requires size >= 1 && Valid()
      modifies this`incoming, this`outgoing, this`calls, this`sends
      ensures old(incoming) == taken + incoming
      ensures echoed <= taken && outgoing == old(outgoing) + echoed
      ensures Valid() && calls > old(calls) && (calls - 1 !in sends ==> echoed == taken)
      ensures Granted(old(calls), calls) ==> incoming == [] && outgoing == old(outgoing) + old(incoming)
      ensures !Granted(old(calls), calls) ==> calls > old(calls) && Granted(old(calls), calls - 1)
    {
      var buf := new byte[size](_ => 0);
      taken, echoed := [], [];
      ghost var all, before, first := incoming, outgoing, calls;
      var nr := ReceiveSome(buf, size);
      while nr > 0
        invariant nr <= size && calls > first
        invariant forall k :: k in sends ==> k < calls - 1
        invariant all == taken + (if nr > 0 then buf[..nr] else []) + incoming
        invariant echoed == taken && outgoing == before + echoed
        invariant nr >= 0 ==> Granted(first, calls)
        invariant nr < 0 ==> Granted(first, calls - 1) && grant(calls - 1) <= 0
        invariant nr == 0 ==> incoming == []
        decreases |incoming|, nr
      {
        ghost var got := buf[..nr];
        var nw := SendAll(buf, nr);
        taken := taken + got;
        echoed := echoed + buf[..nw];
        if nw < nr {
          break;
        }
        nr := ReceiveSome(buf, size);
      }
    }
  }
}
