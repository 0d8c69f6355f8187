/**
  The line reader of http/myhttpd.c as a function of the bytes a socket still holds, and what
  a sequence of calls makes of a stream.  Unlike section 2.2 of RFC 9112, which lets a
  recipient end a line at a bare LF but not at a bare CR, the code ends it at either.
*/
module HttpLines {
  import opened Bytes
  import opened Options
  import opened Modular
  import opened Numbers

  const NUL: byte := 0
  const LF: byte := 10
  const CR: byte := 13
  const SP: byte := 32

  /** What a socket answers when its bytes run out: 0, or -1. */
  datatype End = Eof | WouldBlock

  /** `blocked`: the last call to recv found no byte. */
  datatype Read = Read(line: seq<byte>, used: nat, blocked: bool)

  /** How many bytes the line end at the head of s takes. */
  function EndWidth(s: seq<byte>): nat
    requires s != []
  {
    if s[0] == CR && |s| > 1 && s[1] == LF then 2 else 1
  }

  predicate IsEnd(c: byte) { c == CR || c == LF }

  /** get_line with room for `cap` bytes, lines 70 to 96. */
  function ReadLine(s: seq<byte>, cap: nat): Read {
    if cap == 0 then Read([], 0, false)
    else if s == [] then Read([], 0, true)
    else if IsEnd(s[0]) then Read([LF], EndWidth(s), s == [CR])
    else
      var r := ReadLine(s[1..], cap - 1);
      Read([s[0]] + r.line, 1 + r.used, r.blocked)
  }

  /** What get_line returns: -1 when the last recv failed, else the length. */
  function Returned(r: Read, end: End): int {
    if r.blocked && end == WouldBlock then -1 else |r.line|
  }

  /** A stream with every CRLF, bare CR and LF replaced by LF. */
  function Normalize(s: seq<byte>): seq<byte> {
    if s == [] then []
    else if IsEnd(s[0]) then [LF] + Normalize(s[EndWidth(s)..])
    else [s[0]] + Normalize(s[1..])
  }

  /** Where the first LF of t is, or |t|. */
  function FirstLf(t: seq<byte>): (n: nat)
    ensures n <= |t|
  {
    if t == [] || t[0] == LF then 0 else 1 + FirstLf(t[1..])
  }

  /** The first line of a normalised stream, cut to `cap` bytes. */
  function CutLine(t: seq<byte>, cap: nat): seq<byte> {
    t[..Min(cap, Min(FirstLf(t) + 1, |t|))]
  }

  /** Does position k of s lie between the CR and the LF of a pair? */
  predicate SplitsPair(s: seq<byte>, k: nat) {
    0 < k < |s| && s[k - 1] == CR && s[k] == LF
  }

  lemma {:induction false} ReadLineUses(s: seq<byte>, cap: nat)
    ensures var r := ReadLine(s, cap);
      r.used <= |s| && (r.used == 0 <==> s == [] || cap == 0) && (r.blocked ==> r.used == |s|)
  {
    if cap > 0 && s != [] && !IsEnd(s[0]) {
      ReadLineUses(s[1..], cap - 1);
    }
  }

  lemma {:induction false} ReadLineKeepsPairs(s: seq<byte>, cap: nat)
    ensures !SplitsPair(s, ReadLine(s, cap).used)
  {
    if cap > 0 && s != [] && !IsEnd(s[0]) {
      ReadLineKeepsPairs(s[1..], cap - 1);
    }
  }

  lemma {:induction false} ReadLineSplits(s: seq<byte>, cap: nat)
    ensures var r := ReadLine(s, cap);
      r.used <= |s| && Normalize(s) == r.line + Normalize(s[r.used..])
  {
    if cap > 0 && s != [] && !IsEnd(s[0]) {
      ReadLineSplits(s[1..], cap - 1);
      assert s[1..][ReadLine(s[1..], cap - 1).used..] == s[ReadLine(s, cap).used..];
    }
  }

  lemma CutLonger(x: byte, t: seq<byte>, cap: nat)
    requires cap > 0
    ensures CutLine([x] + t, cap) == if x == LF then [x] else [x] + CutLine(t, cap - 1)
  {
    assert ([x] + t)[1..] == t;
  }

  lemma {:induction false} ReadLineCuts(s: seq<byte>, cap: nat)
    ensures ReadLine(s, cap).line == CutLine(Normalize(s), cap)
  {
    if cap > 0 && s != [] {
      if IsEnd(s[0]) {
        CutLonger(LF, Normalize(s[EndWidth(s)..]), cap);
      } else {
        ReadLineCuts(s[1..], cap - 1);
        CutLonger(s[0], Normalize(s[1..]), cap);
      }
    }
  }

  predicate EndsInLf(line: seq<byte>) { line != [] && line[|line| - 1] == LF }

  /** The stream ran out within the line, or at a CR that a LF could have followed. */
  predicate RunsOut(s: seq<byte>, cap: nat, line: seq<byte>, used: nat) {
    used == |s| && cap > 0 && ((|line| < cap && !EndsInLf(line)) || (s != [] && s[|s| - 1] == CR))
  }

  lemma {:induction false} ReadLineBlocks(s: seq<byte>, cap: nat)
    ensures var r := ReadLine(s, cap);
      r.blocked <==> RunsOut(s, cap, r.line, r.used)
  {
    ReadLineUses(s, cap);
    if cap > 0 && s != [] && !IsEnd(s[0]) {
      ReadLineUses(s[1..], cap - 1);
      ReadLineBlocks(s[1..], cap - 1);
      assert |s| > 1 ==> s[|s| - 1] == s[1..][|s| - 2];
    }
  }

  /** get_line returns the first line of the normalised stream, cut to the room there is, and
      leaves a rest that normalises to what follows; it never stops inside a CRLF pair. */
  lemma ReadLineExact(s: seq<byte>, cap: nat)
    ensures var r := ReadLine(s, cap);
      && r.used <= |s|
      && r.line == CutLine(Normalize(s), cap)
      && Normalize(s) == r.line + Normalize(s[r.used..])
      && !SplitsPair(s, r.used)
      && (r.used == 0 <==> s == [] || cap == 0)
      && (r.blocked <==> RunsOut(s, cap, r.line, r.used))
  {
    ReadLineUses(s, cap);
    ReadLineBlocks(s, cap);
    ReadLineCuts(s, cap);
    ReadLineSplits(s, cap);
    ReadLineKeepsPairs(s, cap);
  }

  /** A result has LF nowhere but at its end, and ends there unless the room or the stream ran out. */
  lemma {:induction false} LineShape(s: seq<byte>, cap: nat)
    ensures var r := ReadLine(s, cap);
      && |r.line| <= cap
      && (forall k :: 0 <= k < |r.line| - 1 ==> r.line[k] != LF)
      && (|r.line| == cap || r.used == |s| || (r.line != [] && r.line[|r.line| - 1] == LF))
  {
    if cap > 0 && s != [] && !IsEnd(s[0]) {
      LineShape(s[1..], cap - 1);
    }
  }

  // Successive calls.

  /** The results of calls on a stream that ends in EOF, until one returns 0. */
  function Lines(s: seq<byte>, cap: nat): seq<seq<byte>>
    requires cap >= 1
    decreases |s|
  {
    var r := ReadLine(s, cap);
    ReadLineUses(s, cap);
    if Returned(r, Eof) <= 0 || r.used == 0 then [] else [r.line] + Lines(s[r.used..], cap)
  }

  function Concat(parts: seq<seq<byte>>): seq<byte> {
    if parts == [] then [] else parts[0] + Concat(parts[1..])
  }

  /** Whatever the buffer size, the results put together are the normalised stream. */
  lemma {:induction false} ChunkIndependence(s: seq<byte>, cap: nat)
    requires cap >= 1
    ensures Concat(Lines(s, cap)) == Normalize(s)
    decreases |s|
  {
    ReadLineExact(s, cap);
    if s != [] {
      var r := ReadLine(s, cap);
      assert |r.line| > 0;
      ChunkIndependence(s[r.used..], cap);
      assert Lines(s, cap)[1..] == Lines(s[r.used..], cap);
    }
  }

  // Draining the headers, lines 252 to 261.

  /** Where the loop stops, or that it turns for ever without reading. */
  datatype Drained = Stopped(used: nat) | Spins

  /** The loop's test: a line that is just a line end, or -1.  The buffer starts zeroed. */
  predicate Stops(r: Read, end: End) {
    (r.line != [] && r.line[0] == LF) || Returned(r, end) == -1
  }

  function Skip(n: nat, d: Drained): Drained {
    match d
    case Stopped(used) => Stopped(n + used)
    case Spins => Spins
  }

  function Drain(s: seq<byte>, end: End, cap: nat): Drained
    requires cap >= 1
    decreases |s|
  {
    var r := ReadLine(s, cap);
    ReadLineUses(s, cap);
    if Stops(r, end) then Stopped(r.used)
    else if r.used == 0 then Spins
    else Skip(r.used, Drain(s[r.used..], end, cap))
  }

  /** A loop that spins has read to EOF, and every further call returns 0 and an empty line. */
  lemma SpinsForEver(cap: nat)
    requires cap >= 1
    ensures Returned(ReadLine([], cap), Eof) == 0 && !Stops(ReadLine([], cap), Eof)
    ensures Drain([], Eof, cap) == Spins && ReadLine([], cap).used == 0
  {
  }

  /** The length of the first line of s without its end, if it has an end. */
  function Content(s: seq<byte>): (n: Option<nat>)
    ensures n.Some? ==> n.value < |s|
  {
    if s == [] then None
    else if IsEnd(s[0]) then Some(0)
    else match Content(s[1..])
      case Some(n) => Some(n + 1)
      case None => None
  }

  /** How many bytes come before the first line end. */
  function Lead(s: seq<byte>): (n: nat)
    ensures n <= |s|
  {
    if Content(s).Some? then Content(s).value else |s|
  }

  lemma {:induction false} ContentIn(s: seq<byte>)
    ensures Content(s).Some? ==> IsEnd(s[Content(s).value])
    ensures forall k :: 0 <= k < Lead(s) ==> !IsEnd(s[k])
  {
    if s != [] && !IsEnd(s[0]) {
      ContentIn(s[1..]);
      var n := Lead(s);
      forall k | 0 <= k < n
        ensures !IsEnd(s[k])
      {
        assert k > 0 ==> s[k] == s[1..][k - 1];
      }
    }
  }

  /** Just past the first line, its end included. */
  function LineEnd(s: seq<byte>): (n: nat)
    requires Content(s).Some?
    ensures Content(s).value < n <= |s|
  {
    Content(s).value + EndWidth(s[Content(s).value..])
  }

  function Past(n: nat, k: Option<nat>): Option<nat> {
    if k.Some? then Some(n + k.value) else None
  }

  /** Just past the first line whose length is a multiple of `cap`, zero included. */
  function StopAt(s: seq<byte>, cap: nat): Option<nat>
    requires cap >= 1
    decreases |s|
  {
    if Content(s).None? then None
    else
      var n := LineEnd(s);
      if Multiple(Content(s).value, cap) then Some(n)
      else Past(n, StopAt(s[n..], cap))
  }

  lemma {:induction false} ReadChunk(s: seq<byte>, cap: nat)
    requires cap <= Lead(s)
    ensures ReadLine(s, cap) == Read(s[..cap], cap, false)
  {
    if cap > 0 {
      ReadChunk(s[1..], cap - 1);
      assert s[..cap] == [s[0]] + s[1..][..cap - 1];
    }
  }

  lemma {:induction false} ReadRemainder(s: seq<byte>, cap: nat)
    requires Content(s).None? && |s| < cap
    ensures ReadLine(s, cap) == Read(s, |s|, true)
  {
    if s != [] {
      ReadRemainder(s[1..], cap - 1);
      assert s == [s[0]] + s[1..];
    }
  }

  lemma {:induction false} ReadWholeLine(s: seq<byte>, cap: nat)
    requires Content(s).Some? && Content(s).value < cap
    ensures var r := ReadLine(s, cap);
      r.line == s[..Content(s).value] + [LF] && r.used == LineEnd(s) && (r.blocked ==> r.used == |s|)
  {
    if !IsEnd(s[0]) {
      ReadWholeLine(s[1..], cap - 1);
      var n := Content(s).value;
      assert s[..n] == [s[0]] + s[1..][..n - 1];
      assert s[1..][n - 1..] == s[n..];
    }
  }

  /** What one call to get_line finds, by the first line's length. */
  lemma ReadLineByContent(s: seq<byte>, cap: nat)
    requires cap >= 1
    ensures var r := ReadLine(s, cap);
      if Lead(s) >= cap then r == Read(s[..cap], cap, false)
      else match Content(s)
        case Some(n) => r.line == s[..n] + [LF] && r.used == LineEnd(s) && (r.blocked ==> r.used == |s|)
        case None => r == Read(s, |s|, true)
  {
    hide ReadLine, Content, LineEnd;
    if cap <= Lead(s) {
      ReadChunk(s, cap);
    } else if Content(s).Some? {
      ReadWholeLine(s, cap);
    } else {
      ReadRemainder(s, cap);
    }
  }

  lemma {:induction false} ContentDrop(s: seq<byte>, n: nat)
    requires n <= Lead(s)
    ensures Content(s[n..]) == if Content(s).Some? then Some(Content(s).value - n) else None
  {
    ContentIn(s);
    if n > 0 {
      ContentDrop(s[1..], n - 1);
      assert s[1..][n - 1..] == s[n..];
    }
  }

  lemma LineEndDrop(s: seq<byte>, n: nat)
    requires Content(s).Some? && n <= Content(s).value
    ensures Content(s[n..]) == Some(Content(s).value - n)
    ensures LineEnd(s) == n + LineEnd(s[n..])
    ensures s[n..][LineEnd(s[n..])..] == s[LineEnd(s)..]
  {
    hide Content;
    ContentDrop(s, n);
    var v := Content(s).value;
    assert s[n..][v - n..] == s[v..];
  }

  /** A line longer than the room there is takes one call for each `cap` bytes. */
  lemma StopAtDrop(s: seq<byte>, cap: nat)
    requires 1 <= cap <= Lead(s)
    ensures StopAt(s, cap) == Past(cap, StopAt(s[cap..], cap))
  {
    hide Multiple, Content, LineEnd;
    if Content(s).Some? {
      LineEndDrop(s, cap);
      MultipleDrop(Content(s).value, cap);
    } else {
      ContentDrop(s, cap);
    }
  }

  /** What the loop should have made of s. */
  function Expected(s: seq<byte>, end: End, cap: nat): Drained
    requires cap >= 1
  {
    match StopAt(s, cap)
    case Some(k) => Stopped(k)
    case None => if end == WouldBlock then Stopped(|s|) else Spins
  }

  /** One turn of the loop that does not stop takes Expected with it. */
  lemma ExpectedTurn(s: seq<byte>, end: End, cap: nat)
    requires cap >= 1
    ensures var r := ReadLine(s, cap);
      if Stops(r, end) then Expected(s, end, cap) == Stopped(r.used)
      else if r.used == 0 then Expected(s, end, cap) == Spins
      else r.used <= |s| && Expected(s, end, cap) == Skip(r.used, Expected(s[r.used..], end, cap))
  {
    hide Multiple;
    ReadLineUses(s, cap);
    ReadLineByContent(s, cap);
    ContentIn(s);
    var n := Lead(s);
    if n >= cap {
      StopAtDrop(s, cap);
      if n == cap {
        assert Content(s).Some? ==> ReadLine(s, cap).line[0] == s[0];
      }
    } else if Content(s).Some? {
      MultipleSmall(n, cap);
      var r := ReadLine(s, cap);
      if n == 0 {
        assert r.line == [LF];
      } else {
        assert r.line[0] == s[0] != LF;
        if r.used == |s| {
          assert StopAt(s[LineEnd(s)..], cap).None?;
        }
      }
    }
  }

  /** Exactly where the header loop stops: just past the first line whose length is a multiple of
      the room, wherever the blank line is; failing that, at the end of what there is if the
      socket would block, and never if the peer has closed. */
  lemma {:induction false} DrainStopsExactly(s: seq<byte>, end: End, cap: nat)
    requires cap >= 1
    ensures Drain(s, end, cap) == match StopAt(s, cap)
      case Some(k) => Stopped(k)
      case None => if end == WouldBlock then Stopped(|s|) else Spins
    decreases |s|
  {
    ExpectedTurn(s, end, cap);
    ReadLineUses(s, cap);
    var r := ReadLine(s, cap);
    if !Stops(r, end) && r.used > 0 {
      DrainStopsExactly(s[r.used..], end, cap);
    }
  }

  // The blank line.

  /** Just past the first empty line. */
  function BlankLine(s: seq<byte>): Option<nat>
    decreases |s|
  {
    if Content(s).None? then None
    else if Content(s).value == 0 then Some(LineEnd(s))
    else Past(LineEnd(s), BlankLine(s[LineEnd(s)..]))
  }

  /** Before the first empty line there is one whose length is a non-zero multiple of `cap`. */
  predicate EarlyStop(s: seq<byte>, cap: nat)
    requires cap >= 1
    decreases |s|
  {
    Content(s).Some? && Content(s).value > 0 &&
    (Multiple(Content(s).value, cap) || EarlyStop(s[LineEnd(s)..], cap))
  }

  lemma {:induction false} StopAtOrder(s: seq<byte>, cap: nat)
    requires cap >= 1 && BlankLine(s).Some?
    ensures StopAt(s, cap).Some? && StopAt(s, cap).value <= BlankLine(s).value <= |s|
    ensures StopAt(s, cap).value == BlankLine(s).value <==> !EarlyStop(s, cap)
    decreases |s|
  {
    ContentIn(s);
    if Content(s).value > 0 {
      StopAtOrder(s[LineEnd(s)..], cap);
      if Multiple(Content(s).value, cap) {
        LaterIsFurther(s[LineEnd(s)..]);
      }
    }
  }

  lemma LaterIsFurther(s: seq<byte>)
    requires BlankLine(s).Some?
    ensures BlankLine(s).value > 0
  {
  }

  /** The headers of a request are drained up to their blank line, no less and no more, if and only
      if no header line has a length that is a multiple of the buffer's room. */
  lemma DrainEndsAtBlankLine(s: seq<byte>, end: End, cap: nat)
    requires cap >= 1 && BlankLine(s).Some?
    ensures Drain(s, end, cap) == Stopped(BlankLine(s).value) <==> !EarlyStop(s, cap)
    ensures Drain(s, end, cap).Stopped? && Drain(s, end, cap).used <= BlankLine(s).value
  {
    DrainStopsExactly(s, end, cap);
    StopAtOrder(s, cap);
  }
}
