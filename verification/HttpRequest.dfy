/** One request through do_read of http/myhttpd.c: request line, headers, dispatch. */
module HttpRequest {
  import opened Bytes
  import opened Options
  import opened Modular
  import opened HttpLines

  // sscanf(line, "%[^ ] %[^ ] %[^ ]", ...)

  /** A C string: what comes before the first NUL. */
  function CString(s: seq<byte>): seq<byte> {
    if s == [] || s[0] == NUL then [] else [s[0]] + CString(s[1..])
  }

  /** isspace in the C locale. */
  predicate IsSpace(c: byte) { 9 <= c <= 13 || c == SP }

  /** %[^ ]: the longest run of anything but a blank. */
  function Run(s: seq<byte>): (t: seq<byte>)
    ensures |t| <= |s|
  {
    if s == [] || s[0] == SP then [] else [s[0]] + Run(s[1..])
  }

  /** A blank in the format skips any white space. */
  function SkipSpace(s: seq<byte>): seq<byte> {
    if s != [] && IsSpace(s[0]) then SkipSpace(s[1..]) else s
  }

  /** What sscanf stores; an array it does not reach keeps what it held. */
  datatype Fields = Fields(verb: Option<seq<byte>>, path: Option<seq<byte>>, protocol: Option<seq<byte>>)

  function Scan(line: seq<byte>): Fields {
    var s := CString(line);
    var verb := Run(s);
    if verb == [] then Fields(None, None, None)
    else
      var s := SkipSpace(s[|verb|..]);
      var path := Run(s);
      if path == [] then Fields(Some(verb), None, None)
      else
        var s := SkipSpace(s[|path|..]);
        var protocol := Run(s);
        Fields(Some(verb), Some(path), if protocol == [] then None else Some(protocol))
  }

  function Lower(c: byte): byte { if 65 <= c <= 90 then c + 32 else c }

  /** strncasecmp(method, "GET", 3) == 0 */
  predicate IsGet(verb: seq<byte>) {
    |verb| >= 3 && Lower(verb[0]) == 103 && Lower(verb[1]) == 101 && Lower(verb[2]) == 116
  }

  /** The file handed to http_request: path + 1, for a GET. */
  function Served(f: Fields): Option<seq<byte>> {
    if f.verb.Some? && IsGet(f.verb.value) && f.path.Some? && f.path.value != []
    then Some(f.path.value[1..]) else None
  }

  // do_read.

  datatype Outcome = ClosedFd | Spinning | Handled(fields: Fields, served: Option<seq<byte>>)

  /** The outcome and how many bytes it took; lines of at most `cap` bytes. */
  function HandleRequest(s: seq<byte>, end: End, cap: nat): (Outcome, nat)
    requires cap >= 1
  {
    var r := ReadLine(s, cap);
    ReadLineUses(s, cap);
    if Returned(r, end) == 0 then (ClosedFd, r.used)
    else
      var f := Scan(r.line);
      match Drain(s[r.used..], end, cap)
      case Stopped(k) => (Handled(f, Served(f)), r.used + k)
      case Spins => (Spinning, |s|)
  }

  // What the fields and the outcome are, without reading the functions above.

  /** v is the part of s before its first blank. */
  ghost predicate Word(s: seq<byte>, v: seq<byte>) {
    v <= s && (forall k :: 0 <= k < |v| ==> v[k] != 32) && (|v| == |s| || s[|v|] == 32)
  }

  /** t is s from its first byte that is no white space on. */
  ghost predicate Trimmed(s: seq<byte>, t: seq<byte>) {
    && |t| <= |s| && t == s[|s| - |t|..]
    && (forall k :: 0 <= k < |s| - |t| ==> s[k] in {9, 10, 11, 12, 13, 32})
    && (t == [] || t[0] !in {9, 10, 11, 12, 13, 32})
  }

  ghost predicate Filled(f: Option<seq<byte>>, v: seq<byte>) { f == if v == [] then None else Some(v) }

  lemma {:induction false} CStringIs(s: seq<byte>)
    ensures CString(s) <= s && (forall k :: 0 <= k < |CString(s)| ==> CString(s)[k] != 0)
    ensures |CString(s)| == |s| || s[|CString(s)|] == 0
  {
    if s != [] && s[0] != NUL {
      CStringIs(s[1..]);
    }
  }

  lemma {:induction false} RunIsWord(s: seq<byte>)
    ensures Word(s, Run(s))
  {
    if s != [] && s[0] != SP {
      RunIsWord(s[1..]);
    }
  }

  lemma {:induction false} SkipTrims(s: seq<byte>)
    ensures Trimmed(s, SkipSpace(s))
  {
    if s != [] && IsSpace(s[0]) {
      SkipTrims(s[1..]);
      var t := SkipSpace(s[1..]);
      assert s[1..][|s| - 1 - |t|..] == s[|s| - |t|..];
      forall k | 0 <= k < |s| - |t|
        ensures s[k] in {9, 10, 11, 12, 13, 32}
      {
        assert k > 0 ==> s[k] == s[1..][k - 1];
      }
    }
  }

  /** Of any line whatever, up to its first NUL: three words, each without the white space before it;
      a field is left unset when its word is empty or an earlier one is. */
  lemma ScanExactly(line: seq<byte>) returns (s: seq<byte>, v: seq<byte>, t: seq<byte>, p: seq<byte>, u: seq<byte>, q: seq<byte>)
    ensures s <= line && (forall k :: 0 <= k < |s| ==> s[k] != 0) && (|s| == |line| || line[|s|] == 0)
    ensures Word(s, v) && Trimmed(s[|v|..], t) && Word(t, p) && Trimmed(t[|p|..], u) && Word(u, q)
    ensures var f := Scan(line);
      && Filled(f.verb, v)
      && Filled(f.path, if v == [] then [] else p)
      && Filled(f.protocol, if v == [] || p == [] then [] else q)
  {
    s := CString(line);
    CStringIs(line);
    v := Run(s);
    RunIsWord(s);
    t := SkipSpace(s[|v|..]);
    SkipTrims(s[|v|..]);
    p := Run(t);
    RunIsWord(t);
    u := SkipSpace(t[|p|..]);
    SkipTrims(t[|p|..]);
    q := Run(u);
    RunIsWord(u);
  }

  /** The first three bytes are those of GET, in either case. */
  ghost predicate SpellsGet(v: seq<byte>) {
    |v| >= 3 && v[0] in {71, 103} && v[1] in {69, 101} && v[2] in {84, 116}
  }

  /** A file is asked for exactly by a method that begins like GET and a path; it is the path but for its
      first byte. */
  ghost predicate ServedIs(f: Fields, file: Option<seq<byte>>) {
    if f.verb.Some? && SpellsGet(f.verb.value) && f.path.Some? && f.path.value != []
    then file == Some(f.path.value[1..]) else file == None
  }

  lemma ServedExactly(f: Fields)
    ensures ServedIs(f, Served(f))
  {
  }

  /** What becomes of any stream: the descriptor is closed exactly when the peer has closed without a
      byte; the loop turns for ever exactly when the peer has closed and no later line has a length that
      is a multiple of the room; otherwise the first line is taken apart and what follows is read up to
      the end of such a line, or all of it. */
  lemma OutcomeExactly(s: seq<byte>, end: End, cap: nat)
    requires cap >= 1
    ensures var (o, used) := HandleRequest(s, end, cap);
      var n := ReadLine(s, cap).used;
      && (o == ClosedFd <==> s == [] && end == Eof)
      && n <= used <= |s|
      && (o == Spinning <==> s != [] && end == Eof && StopAt(s[n..], cap) == None)
      && (o.Handled? ==>
            && o.fields == Scan(CutLine(Normalize(s), cap)) && ServedIs(o.fields, o.served)
            && used == match StopAt(s[n..], cap) case Some(k) => n + k case None => |s|)
  {
    var r := ReadLine(s, cap);
    FirstLine(s, cap);
    DrainStopsExactly(s[r.used..], end, cap);
    DrainUses(s[r.used..], cap);
    ServedExactly(Scan(r.line));
    hide ReadLine, Drain, Scan, Served, ServedIs, CutLine, Normalize, StopAt;
  }

  lemma FirstLine(s: seq<byte>, cap: nat)
    requires cap >= 1
    ensures var r := ReadLine(s, cap);
      && r.used <= |s| && r.line == CutLine(Normalize(s), cap)
      && (r.line == [] <==> s == []) && (s == [] ==> r.blocked)
  {
    ReadLineExact(s, cap);
  }

  lemma {:induction false} DrainUses(s: seq<byte>, cap: nat)
    requires cap >= 1
    ensures StopAt(s, cap).Some? ==> StopAt(s, cap).value <= |s|
    decreases |s|
  {
    if Content(s).Some? {
      DrainUses(s[LineEnd(s)..], cap);
    }
  }

  /** The outcome without how far the stream is read. */
  ghost predicate OutcomeOk(s: seq<byte>, end: End, cap: nat, o: Outcome) {
    && (o == ClosedFd <==> s == [] && end == Eof)
    && (o.Handled? ==> o.fields == Scan(CutLine(Normalize(s), cap)) && ServedIs(o.fields, o.served))
  }

  lemma OutcomeInShort(s: seq<byte>, end: End, cap: nat)
    requires cap >= 1
    ensures OutcomeOk(s, end, cap, HandleRequest(s, end, cap).0)
  {
    OutcomeExactly(s, end, cap);
  }

  // Printed requests.

  const CRLF: seq<byte> := [CR, LF]

  function PrintHeaders(headers: seq<seq<byte>>): seq<byte> {
    if headers == [] then CRLF else headers[0] + CRLF + PrintHeaders(headers[1..])
  }

  function RequestLine(verb: seq<byte>, path: seq<byte>, protocol: seq<byte>): seq<byte> {
    verb + [SP] + path + [SP] + protocol
  }

  function PrintRequest(verb: seq<byte>, path: seq<byte>, protocol: seq<byte>, headers: seq<seq<byte>>): seq<byte> {
    RequestLine(verb, path, protocol) + CRLF + PrintHeaders(headers)
  }

  ghost predicate IsToken(s: seq<byte>) {
    s != [] && forall k :: 0 <= k < |s| ==> s[k] != NUL && !IsSpace(s[k])
  }

  ghost predicate IsHeader(s: seq<byte>) {
    s != [] && forall k :: 0 <= k < |s| ==> !IsEnd(s[k])
  }

  /** Some header has a length that is a multiple of the room. */
  ghost predicate BadHeader(headers: seq<seq<byte>>, cap: nat)
    requires cap >= 1
  {
    exists k :: 0 <= k < |headers| && Multiple(|headers[k]|, cap)
  }

  lemma {:induction false} CStringOf(s: seq<byte>, rest: seq<byte>)
    requires forall k :: 0 <= k < |s| ==> s[k] != NUL
    requires rest == [] || rest[0] == NUL
    ensures CString(s + rest) == s
  {
    if s != [] {
      assert (s + rest)[1..] == s[1..] + rest;
      CStringOf(s[1..], rest);
    } else {
      assert s + rest == rest;
    }
  }

  lemma {:induction false} RunOf(s: seq<byte>, rest: seq<byte>)
    requires forall k :: 0 <= k < |s| ==> s[k] != SP
    requires rest == [] || rest[0] == SP
    ensures Run(s + rest) == s
  {
    if s != [] {
      assert (s + rest)[1..] == s[1..] + rest;
      RunOf(s[1..], rest);
    } else {
      assert s + rest == rest;
    }
  }

  /** sscanf takes a printed request line apart; the protocol keeps the line feed. */
  lemma ScanPrinted(verb: seq<byte>, path: seq<byte>, protocol: seq<byte>)
    requires IsToken(verb) && IsToken(path) && IsToken(protocol)
    ensures Scan(RequestLine(verb, path, protocol) + [LF])
         == Fields(Some(verb), Some(path), Some(protocol + [LF]))
  {
    var last := protocol + [LF];
    var rest := [SP] + path + [SP] + last;
    var line := RequestLine(verb, path, protocol) + [LF];
    assert line == verb + rest;
    CStringOf(line, []);
    assert line + [] == line;
    RunOf(verb, rest);
    var rest' := [SP] + last;
    assert rest[1..] == path + rest';
    assert SkipSpace(rest) == SkipSpace(rest[1..]) == path + rest';
    RunOf(path, rest');
    assert rest'[1..] == last;
    assert SkipSpace(rest') == SkipSpace(last) == last;
    RunOf(last, []);
    assert last + [] == last;
  }

  lemma {:induction false} ContentOf(x: seq<byte>, rest: seq<byte>)
    requires forall k :: 0 <= k < |x| ==> !IsEnd(x[k])
    ensures Content(x + CRLF + rest) == Some(|x|) && LineEnd(x + CRLF + rest) == |x| + 2
    ensures (x + CRLF + rest)[|x| + 2..] == rest
  {
    if x != [] {
      assert (x + CRLF + rest)[1..] == x[1..] + CRLF + rest;
      ContentOf(x[1..], rest);
    }
    assert (x + CRLF + rest)[|x|..] == CRLF + rest;
  }

  /** Where printed headers end, and whether the loop stops before. */
  lemma {:induction false} HeadersEnd(headers: seq<seq<byte>>, tail: seq<byte>, cap: nat)
    requires cap >= 1 && forall k :: 0 <= k < |headers| ==> IsHeader(headers[k])
    ensures BlankLine(PrintHeaders(headers) + tail) == Some(|PrintHeaders(headers)|)
    ensures EarlyStop(PrintHeaders(headers) + tail, cap) <==> BadHeader(headers, cap)
  {
    hide Multiple;
    var s := PrintHeaders(headers) + tail;
    if headers == [] {
      assert s == [] + CRLF + tail;
      ContentOf([], tail);
    } else {
      var rest := PrintHeaders(headers[1..]) + tail;
      assert s == headers[0] + CRLF + rest;
      ContentOf(headers[0], rest);
      HeadersEnd(headers[1..], tail, cap);
      BadHeaderSplit(headers, cap);
    }
  }

  lemma BadHeaderSplit(headers: seq<seq<byte>>, cap: nat)
    requires cap >= 1 && headers != []
    ensures BadHeader(headers, cap) <==> Multiple(|headers[0]|, cap) || BadHeader(headers[1..], cap)
  {
    hide Multiple;
    if k :| 0 <= k < |headers| && Multiple(|headers[k]|, cap) {
      assert k > 0 ==> headers[k] == headers[1..][k - 1];
    }
    if k :| 0 <= k < |headers[1..]| && Multiple(|headers[1..][k]|, cap) {
      assert headers[1..][k] == headers[k + 1];
    }
  }

  /** A printed request followed by anything: do_read recovers its fields, and it leaves exactly
      what follows unread if and only if no header has a length that is a multiple of the room. */
  lemma RequestRoundTrip(verb: seq<byte>, path: seq<byte>, protocol: seq<byte>,
                         headers: seq<seq<byte>>, tail: seq<byte>, end: End, cap: nat)
    requires IsToken(verb) && IsToken(path) && IsToken(protocol)
    requires forall k :: 0 <= k < |headers| ==> IsHeader(headers[k])
    requires |RequestLine(verb, path, protocol)| < cap
    ensures var printed := PrintRequest(verb, path, protocol, headers);
      var (o, used) := HandleRequest(printed + tail, end, cap);
      && o == Handled(Fields(Some(verb), Some(path), Some(protocol + [LF])),
                      if |verb| >= 3 && verb[0] in {71, 103} && verb[1] in {69, 101} && verb[2] in {84, 116}
                      then Some(path[1..]) else None)
      && used <= |printed|
      && ((printed + tail)[used..] == tail <==> !BadHeader(headers, cap))
  {
    var line := RequestLine(verb, path, protocol);
    var printed := PrintRequest(verb, path, protocol, headers);
    var rest := PrintHeaders(headers) + tail;
    var s := printed + tail;
    assert s == line + CRLF + rest;
    ContentOf(line, rest);
    ReadLineByContent(s, cap);
    assert s[..|line|] == line;
    ScanPrinted(verb, path, protocol);
    HeadersEnd(headers, tail, cap);
    DrainEndsAtBlankLine(rest, end, cap);
    ServedExactly(Scan(line + [LF]));
    hide Scan, Drain, ReadLine, Served, PrintHeaders, BadHeader, EarlyStop, BlankLine, IsHeader, IsToken;
    assert s[|line| + 2..] == rest;
    var used := HandleRequest(s, end, cap).1;
    assert s[|printed|..] == tail;
    assert |s[used..]| == |s| - used;
  }
}
