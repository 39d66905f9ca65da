/**
  Authentication on a rewinding connection and the fallback after a failure
  (tunnel/trojan/server.go, tunnel/metadata.go).

  Auth reads through the reader while it buffers; whatever it finds, a failure rewinds the
  connection and hands it on.  A read may also fail early, for instance on the auth deadline.
*/
module TrojanServer {
  import opened Bytes
  import opened Address
  import opened TrojanHeader
  import RewindReader

  /** Nothing in the source recovers from a panic, so that it ends the process; it is a result here. */
  datatype Outcome = Accepted(request: Request) | Rejected | Crashed

  /** A read that worked is the Take of the stream, one that failed on a patient connection is its failure. */
  lemma ReadIsTake(stream: seq<Byte>, p: nat, n: nat, ok: bool, bytes: seq<Byte>, rest: seq<Byte>)
    requires p <= |stream| && stream[p..] == bytes + rest && |bytes| <= n && (ok <==> |bytes| == n)
    ensures ok ==> Take(stream, p, n) == Parsed(bytes, p + n) && p + n <= |stream| && stream[p + n..] == rest
    ensures !ok && rest == [] ==> Take(stream, p, n) == Failed
  {
    assert |stream[p..]| == |bytes| + |rest|;
    assert stream[p..][..|bytes|] == bytes && stream[p..][|bytes|..] == rest;
    if ok {
      assert stream[p..p + n] == stream[p..][..n] && stream[p + n..] == stream[p..][n..];
    }
  }

  /** Reads `n` bytes at position `p` of the stream that remained when the call began. */
  method ReadAt(c: RewindReader.Conn, n: nat, ghost stream: seq<Byte>, ghost p: nat)
    returns (ok: bool, bytes: seq<Byte>)
    requires c.Ok() && p <= |stream| && RewindReader.Remaining(c.Abs()) == stream[p..]
    modifies c`asked, c`raw, c`buf, c`bufReadIdx, c`rewound
    ensures c.Ok() && c.mark == old(c.mark)
    ensures ok ==> Take(stream, p, n) == Parsed(bytes, p + n) && p + n <= |stream|
                   && RewindReader.Remaining(c.Abs()) == stream[p + n..]
    ensures !ok && RewindReader.Patient(c.arrivals) ==> Take(stream, p, n) == Failed
  {
    ok, bytes := c.ReadFull(n);
    ReadIsTake(stream, p, n, ok, bytes, RewindReader.Remaining(c.Abs()));
  }

  /** How a reading method relates to the parser it implements. */
  ghost predicate Implements<T>(r: Parse<T>, parser: Parse<T>, patient: bool) {
    && (!r.Failed? ==> parser == r)
    && (r.Failed? && patient ==> parser == Failed)
  }

  /** The stream is where the parser stopped. */
  ghost predicate StopsAt<T>(c: RewindReader.Conn, r: Parse<T>, stream: seq<Byte>)
    reads c
  {
    c.Ok() && (r.Parsed? ==> r.next <= |stream| && RewindReader.Remaining(c.Abs()) == stream[r.next..])
  }

  /** Address.Unmarshal, for the two fixed sizes. */
  method ReadIP(c: RewindReader.Conn, kind: Byte, size: nat, ghost stream: seq<Byte>, p: nat)
    returns (r: Parse<Address>)
    requires c.Ok() && p <= |stream| && RewindReader.Remaining(c.Abs()) == stream[p..]
    modifies c`asked, c`raw, c`buf, c`bufReadIdx, c`rewound
    ensures StopsAt(c, r, stream) && c.mark == old(c.mark)
    ensures Implements(r, UnmarshalIP(stream, p, kind, size), RewindReader.Patient(c.arrivals))
  {
    var ok, buf := ReadAt(c, size + 2, stream, p);
    if !ok {
      return Failed;
    }
    r := Parsed(Address(kind, [], buf[..size], Uint16(buf[size..])), p + size + 2);
  }

  method ReadDomain(c: RewindReader.Conn, parse: ParseIP, ghost stream: seq<Byte>, p: nat) returns (r: Parse<Address>)
    requires c.Ok() && p <= |stream| && RewindReader.Remaining(c.Abs()) == stream[p..]
    modifies c`asked, c`raw, c`buf, c`bufReadIdx, c`rewound
    ensures StopsAt(c, r, stream) && c.mark == old(c.mark)
    ensures Implements(r, UnmarshalDomain(stream, p, parse), RewindReader.Patient(c.arrivals))
  {
    var ok, byteBuf := ReadAt(c, 1, stream, p);
    if !ok {
      return Failed;
    }
    var length := byteBuf[0];
    var size := (length + 2) % 256;
    var buf;
    ok, buf := ReadAt(c, size, stream, p + 1);
    if !ok {
      return Failed;
    }
    if length > |buf| {
      return Panicked;
    }
    r := Parsed(FromHost(buf[..length], Uint16(buf[length..]), parse), p + 1 + size);
  }

  method ReadAddress(c: RewindReader.Conn, parse: ParseIP, ghost stream: seq<Byte>, p: nat) returns (r: Parse<Address>)
    requires c.Ok() && p <= |stream| && RewindReader.Remaining(c.Abs()) == stream[p..]
    modifies c`asked, c`raw, c`buf, c`bufReadIdx, c`rewound
    ensures StopsAt(c, r, stream) && c.mark == old(c.mark)
    ensures Implements(r, Unmarshal(stream, p, parse), RewindReader.Patient(c.arrivals))
  {
    var ok, byteBuf := ReadAt(c, 1, stream, p);
    if !ok {
      return Failed;
    }
    if byteBuf[0] == IPV4 {
      r := ReadIP(c, byteBuf[0], 4, stream, p + 1);
    } else if byteBuf[0] == IPV6 {
      r := ReadIP(c, byteBuf[0], 16, stream, p + 1);
    } else if byteBuf[0] == DOMAIN_NAME {
      r := ReadDomain(c, parse, stream, p + 1);
    } else {
      r := Failed;
    }
  }

  method ReadMetadata(c: RewindReader.Conn, parse: ParseIP, ghost stream: seq<Byte>, p: nat)
    returns (r: Parse<Metadata>)
    requires c.Ok() && p <= |stream| && RewindReader.Remaining(c.Abs()) == stream[p..]
    modifies c`asked, c`raw, c`buf, c`bufReadIdx, c`rewound
    ensures StopsAt(c, r, stream) && c.mark == old(c.mark)
    ensures Implements(r, UnmarshalMetadata(stream, p, parse), RewindReader.Patient(c.arrivals))
  {
    var ok, byteBuf := ReadAt(c, 1, stream, p);
    if !ok {
      return Failed;
    }
    var a := ReadAddress(c, parse, stream, p + 1);
    match a
    case Parsed(address, next) => r := Parsed(Metadata(byteBuf[0], address), next);
    case Failed => r := Failed;
    case Panicked => r := Panicked;
  }

  method ReadTarget(c: RewindReader.Conn, hash: seq<Byte>, parse: ParseIP, ghost stream: seq<Byte>, p: nat)
    returns (r: Parse<Request>)
    requires c.Ok() && p <= |stream| && RewindReader.Remaining(c.Abs()) == stream[p..]
    modifies c`asked, c`raw, c`buf, c`bufReadIdx, c`rewound
    ensures StopsAt(c, r, stream) && c.mark == old(c.mark)
    ensures Implements(r, ParseMetadata(stream, p, hash, parse), RewindReader.Patient(c.arrivals))
  {
    var m := ReadMetadata(c, parse, stream, p);
    match m
    case Parsed(metadata, next) =>
      var ok, crlf := ReadAt(c, 2, stream, next);
      r := if ok then Parsed(Request(hash, metadata), next + 2) else Failed;
    case Failed => r := Failed;
    case Panicked => r := Panicked;
  }

  /** Auth up to the admission of the IP. */
  method ReadRequest(c: RewindReader.Conn, known: Known, parse: ParseIP, ghost stream: seq<Byte>)
    returns (r: Parse<Request>)
    requires c.Ok() && RewindReader.Remaining(c.Abs()) == stream
    modifies c`asked, c`raw, c`buf, c`bufReadIdx, c`rewound
    ensures StopsAt(c, r, stream) && c.mark == old(c.mark)
    ensures Implements(r, ParseRequest(stream, known, parse), RewindReader.Patient(c.arrivals))
    ensures |stream| < 56 || !known(stream[..56]) ==> r == Failed
    ensures r.Parsed? ==> Whole(stream) && Asks(stream, r.value, parse) && r.next == EndOf(stream, 59) + 2
    ensures RewindReader.Patient(c.arrivals) && |stream| >= 56 && known(stream[..56]) && Whole(stream) ==> r.Parsed?
  {
    ParsesExactly(stream, known, parse);
    assert stream[0..] == stream;
    var ok, userHash := ReadAt(c, HASH_SIZE, stream, 0);
    if !ok || !known(userHash) {
      return Failed;
    }
    var crlf;
    ok, crlf := ReadAt(c, 2, stream, HASH_SIZE);
    if !ok {
      return Failed;
    }
    r := ReadTarget(c, userHash, parse, stream, HASH_SIZE + 2);
  }

  /** A new connection starts to buffer at its first byte. */
  method StartBuffering(c: RewindReader.Conn)
    requires c.Abs() == RewindReader.Fresh(c.data)
    modifies c
    ensures c.Ok() && c.buffering && c.bufferSize == 128 && c.mark == 0
    ensures RewindReader.Remaining(c.Abs()) == c.data
  {
    RewindReader.SetBufferSizeExactly(c.Abs(), 128);
    var on := c.SetBuffer(128);
    assert c.data[0..] == c.data;
  }

  /** Rewind and stop buffering: the whole stream is to be read again. */
  method Fallback(c: RewindReader.Conn)
    requires c.Ok() && c.buffering && c.bufferSize != 0 && c.mark == 0
    modifies c`rewound, c`bufReadIdx, c`buffering
    ensures c.Ok() && !c.buffering && RewindReader.Remaining(c.Abs()) == c.data
  {
    RewindReader.RewindExactly(c.Abs());
    var back := c.RewindIt();
    c.Stop();
    assert c.data[0..] == c.data;
  }

  /** The verdicts that the bytes of a stream call for. */
  ghost predicate Fits(outcome: Outcome, parsed: Parse<Request>, admits: Request -> bool, patient: bool) {
    match outcome
    case Accepted(request) => parsed.Parsed? && parsed.value == request && admits(request)
    case Rejected => patient ==> parsed.Failed? || (parsed.Parsed? && !admits(parsed.value))
    case Crashed => parsed.Panicked?
  }

  /** A name announced as 254 bytes, or as 255 with a byte behind the length. */
  predicate Overlong(data: seq<Byte>) {
    |data| >= 61 && data[59] == 3 && (data[60] == 254 || (data[60] == 255 && |data| >= 62))
  }

  /** The data starts with the header of a client that was asked for a sound address. */
  ghost predicate Sent(data: seq<Byte>, hash: seq<Byte>, m: Metadata) {
    && |hash| == 56 && Sound(m.address) && (m.address.kind == DOMAIN_NAME ==> |m.address.domain| <= 253)
    && Header(hash, m) <= data
  }

  /** The request as the server sees it. */
  function Seen(hash: seq<Byte>, m: Metadata, parse: ParseIP): Request {
    Request(hash, Metadata(m.command, Received(m.address, parse)))
  }

  lemma SentParses(data: seq<Byte>, hash: seq<Byte>, m: Metadata, known: Known, parse: ParseIP)
    requires Sent(data, hash, m) && known(hash)
    ensures ParseRequest(data, known, parse) == Parsed(Seen(hash, m, parse), |Header(hash, m)|)
  {
    var h := Header(hash, m);
    assert data == h + data[|h|..];
    RequestArrives(hash, m, data[|h|..], known, parse);
  }

  /** What the bytes of a connection call for, without reference to how they are read. */
  lemma Verdicts(data: seq<Byte>, known: Known, parse: ParseIP)
    ensures var r, ours := ParseRequest(data, known, parse), |data| >= 56 && known(data[..56]);
      && (r.Parsed? <==> ours && Whole(data)) && (!ours ==> r.Failed?) && (r.Panicked? <==> ours && Overlong(data))
      && (r.Parsed? ==> Asks(data, r.value, parse) && r.next == EndOf(data, 59) + 2)
      && (r.Parsed? ==> forall request | Asks(data, request, parse) :: request == r.value)
    ensures forall hash: seq<Byte>, m: Metadata | Sent(data, hash, m) && known(hash) ::
      ParseRequest(data, known, parse) == Parsed(Seen(hash, m, parse), |Header(hash, m)|)
  {
    ParsesExactly(data, known, parse);
    var r := ParseRequest(data, known, parse);
    if r.Parsed? {
      forall request | Asks(data, request, parse)
        ensures request == r.value
      {
        StandsOnce(data, 59, request.metadata.address, r.value.metadata.address, parse);
      }
    }
    forall hash: seq<Byte>, m: Metadata | Sent(data, hash, m) && known(hash)
      ensures r == Parsed(Seen(hash, m, parse), |Header(hash, m)|)
    {
      SentParses(data, hash, m, known, parse);
    }
  }

  /**
    What the accept loop does with a new connection.  A connection that is rejected, for
    whatever reason and after however many bytes, is handed to the redirector with the
    client's whole stream still to be read; an accepted one goes on right behind its header.
  */
  method Accept(c: RewindReader.Conn, known: Known, admits: Request -> bool, parse: ParseIP) returns (outcome: Outcome)
    requires c.Abs() == RewindReader.Fresh(c.data)
    modifies c
    ensures c.Ok() && !c.buffering
    ensures Fits(outcome, ParseRequest(c.data, known, parse), admits, RewindReader.Patient(c.arrivals))
    ensures outcome.Rejected? ==> RewindReader.Remaining(c.Abs()) == c.data
    ensures outcome.Accepted? ==>
      && |c.data| >= 56 && known(c.data[..56]) && Whole(c.data)
      && Asks(c.data, outcome.request, parse) && admits(outcome.request)
      && RewindReader.Remaining(c.Abs()) == c.data[EndOf(c.data, 59) + 2..]
    ensures |c.data| < 56 || !known(c.data[..56]) ==> outcome.Rejected?
    ensures RewindReader.Patient(c.arrivals) && outcome.Rejected? && Whole(c.data) && known(c.data[..56]) ==>
      forall request | Asks(c.data, request, parse) :: !admits(request)
    ensures outcome.Crashed? ==> Overlong(c.data)
    ensures RewindReader.Patient(c.arrivals) && Overlong(c.data) && known(c.data[..56]) ==> outcome.Crashed?
    ensures forall hash: seq<Byte>, m: Metadata | Sent(c.data, hash, m) && known(hash) ::
      && !outcome.Crashed?
      && (outcome.Accepted? ==> outcome.request == Seen(hash, m, parse))
      && (RewindReader.Patient(c.arrivals) ==> (outcome.Accepted? <==> admits(Seen(hash, m, parse))))
  {
    Verdicts(c.data, known, parse);
    StartBuffering(c);
    var r := ReadRequest(c, known, parse, c.data);
    if r.Parsed? && admits(r.value) {
      outcome := Accepted(r.value);
      c.Stop();
    } else if r.Panicked? {
      outcome := Crashed;
      c.Stop();
    } else {
      outcome := Rejected;
      Fallback(c);
    }
  }
}
