/**
  The trojan request header (tunnel/trojan/client.go, server.go).

  The client sends hash, CRLF, metadata, CRLF once, in front of the first payload, or alone when
  the delayed flush comes first.  The flush and any number of Write calls race for the once;
  whoever loses waits until the winner's write to the connection has ended.
*/
module TrojanHeader {
  import opened Bytes
  import opened Address
  import opened Numbers
  import opened Seqs

  const HASH_SIZE := 56

  function Header(hash: seq<Byte>, m: Metadata): seq<Byte> {
    hash + CRLF + MarshalMetadata(m) + CRLF
  }

  // ---------- the server's reading of it ----------

  datatype Request = Request(hash: seq<Byte>, metadata: Metadata)

  type Known = seq<Byte> -> bool

  function ParseMetadata(data: seq<Byte>, p: nat, hash: seq<Byte>, parse: ParseIP): Parse<Request> {
    match UnmarshalMetadata(data, p, parse)
    case Parsed(m, next) => (
      match Take(data, next, 2)
      case Parsed(_, end) => Parsed(Request(hash, m), end)
      case _ => Failed
    )
    case Failed => Failed
    case Panicked => Panicked
  }

  /** Auth up to the admission of the IP: the two line ends are skipped, not compared. */
  function ParseRequest(data: seq<Byte>, known: Known, parse: ParseIP): Parse<Request> {
    match Take(data, 0, HASH_SIZE)
    case Parsed(hash, p) =>
      if !known(hash) then Failed
      else (
        match Take(data, p, 2)
        case Parsed(_, next) => ParseMetadata(data, next, hash, parse)
        case _ => Failed
      )
    case _ => Failed
  }

  lemma HeaderLayout(hash: seq<Byte>, m: Metadata, payload: seq<Byte>)
    requires |hash| == HASH_SIZE
    ensures var data := Header(hash, m) + payload;
      && Take(data, 0, HASH_SIZE) == Parsed(hash, HASH_SIZE)
      && Take(data, HASH_SIZE, 2) == Parsed(CRLF, HASH_SIZE + 2)
      && data == (hash + CRLF) + MarshalMetadata(m) + (CRLF + payload)
      && Take(data, HASH_SIZE + 2 + |MarshalMetadata(m)|, 2) == Parsed(CRLF, |Header(hash, m)|)
  {
    PartsInPlace(hash, CRLF, MarshalMetadata(m), payload);
  }

  lemma PartsInPlace(a: seq<Byte>, b: seq<Byte>, c: seq<Byte>, d: seq<Byte>)
    ensures var data := a + b + c + b + d;
      && data == (a + b) + c + (b + d) && data[..|a|] == a && data[|a|..|a| + |b|] == b
      && data[|a| + |b| + |c|..|a| + |b| + |c| + |b|] == b
  {
    Assoc(a + b + c, b, d);
  }

  /** The header byte by byte. */
  lemma HeaderBytes(hash: seq<Byte>, m: Metadata)
    requires |hash| == 56 && (m.address.kind == 1 || m.address.kind == 3 || m.address.kind == 4)
    ensures var h, n := Header(hash, m), |Marshal(m.address).bytes|;
      && |h| == 61 + n && h[..56] == hash && h[56] == 13 && h[57] == 10 && h[58] == m.command
      && h[59..59 + n] == Marshal(m.address).bytes && h[59 + n] == 13 && h[60 + n] == 10
  {
    Places(hash, [13, 10], m.command, Marshal(m.address).bytes);
  }

  lemma Places(hash: seq<Byte>, crlf: seq<Byte>, command: Byte, b: seq<Byte>)
    requires |hash| == 56 && |crlf| == 2
    ensures var h, n := hash + crlf + ([command] + b) + crlf, |b|;
      && |h| == 61 + n && h[..56] == hash && h[56] == crlf[0] && h[57] == crlf[1] && h[58] == command
      && h[59..59 + n] == b && h[59 + n] == crlf[0] && h[60 + n] == crlf[1]
  {
  }

  /** A request stands at the start of the data: 56 bytes, two more, a command, an address, two more bytes. */
  predicate Whole(data: seq<Byte>) {
    |data| >= 60 && Complete(data, 59) && EndOf(data, 59) + 2 <= |data|
  }

  /** `request` is that request. */
  ghost predicate Asks(data: seq<Byte>, request: Request, parse: ParseIP)
    requires Whole(data)
  {
    && request.hash == data[..56] && request.metadata.command == data[58]
    && Stands(data, 59, request.metadata.address, parse)
  }

  /** Auth accepts exactly the whole requests of known users; it panics exactly on names announced as too long. */
  lemma ParsesExactly(data: seq<Byte>, known: Known, parse: ParseIP)
    ensures var r, ours := ParseRequest(data, known, parse), |data| >= 56 && known(data[..56]);
      && (r.Parsed? <==> ours && Whole(data))
      && (r.Parsed? ==> Asks(data, r.value, parse) && r.next == EndOf(data, 59) + 2)
      && (r.Panicked? <==> ours && |data| >= 61 && data[59] == 3
                           && (data[60] == 254 || (data[60] == 255 && |data| >= 62)))
  {
    ReadsExactly(data, 59, parse);
    PanicsExactly(data, 59, parse);
    assert |data| >= 56 ==> data[0..56] == data[..56];
  }

  /** The server recovers hash, command and address and stops where the payload begins. */
  lemma RequestArrives(hash: seq<Byte>, m: Metadata, payload: seq<Byte>, known: Known, parse: ParseIP)
    requires |hash| == HASH_SIZE && known(hash)
    requires Sound(m.address) && (m.address.kind == DOMAIN_NAME ==> |m.address.domain| <= 253)
    ensures ParseRequest(Header(hash, m) + payload, known, parse)
         == Parsed(Request(hash, Metadata(m.command, Received(m.address, parse))), |Header(hash, m)|)
  {
    HeaderLayout(hash, m, payload);
    MetadataArrives(m, hash + CRLF, CRLF + payload, parse);
  }

  /** The server recovers hash, command and address and stops where the payload begins. */
  ghost predicate Recovered(r: Parse<Request>, hash: seq<Byte>, m: Metadata) {
    && r.Parsed? && r.next == |Header(hash, m)|
    && r.value.hash == hash && r.value.metadata.command == m.command && Same(m.address, r.value.metadata.address)
  }

  /** It recovers exactly what was sent if and only if the address is representable. */
  lemma RequestExactly(hash: seq<Byte>, m: Metadata, payload: seq<Byte>, known: Known, parse: ParseIP)
    requires |hash| == HASH_SIZE && known(hash)
    ensures Recovered(ParseRequest(Header(hash, m) + payload, known, parse), hash, m) <==>
      Representable(m.address, parse)
  {
    HeaderLayout(hash, m, payload);
    MetadataExactly(m, hash + CRLF, CRLF + payload, parse);
  }

  // ---------- the race for the header ----------

  datatype Phase = Entering | InHeader | InBody | Returned(ok: bool)

  /** The delayed flush is a call without a payload of its own. */
  datatype Call = Call(payload: seq<Byte>, flush: bool, phase: Phase)

  datatype Once = NotStarted | Held(call: nat) | Finished

  /** `order` lists the calls that wrote to the connection, `parts` what of each write got through. */
  datatype State = State(
    header: seq<Byte>,
    once: Once,
    calls: map<nat, Call>,
    wire: seq<Byte>,
    order: seq<nat>,
    parts: seq<seq<Byte>>)

  function Fresh(header: seq<Byte>): State {
    State(header, NotStarted, map[], [], [], [])
  }

  // A write to the connection succeeds, or fails after some of its bytes were sent.
  datatype Fate = Succeeds | FailsAfter(sent: nat)

  datatype Action =
    | Begin(c: nat, payload: seq<Byte>, flush: bool)
    | Enter(c: nat)
    | WriteHeader(c: nat, fate: Fate)
    | WriteBody(c: nat, fate: Fate)

  function SetPhase(s: State, c: nat, phase: Phase): State
    requires c in s.calls
  {
    s.(calls := s.calls[c := s.calls[c].(phase := phase)])
  }

  function DoBegin(s: State, c: nat, payload: seq<Byte>, flush: bool): State {
    if c in s.calls then s
    else s.(calls := s.calls[c := Call(if flush then [] else payload, flush, Entering)])
  }

  /** sync.Once: the first call runs the function, later ones wait for its end and skip it. */
  function DoEnter(s: State, c: nat): State {
    if c !in s.calls || !s.calls[c].phase.Entering? then s
    else
      match s.once
      case NotStarted => SetPhase(s, c, InHeader).(once := Held(c))
      case Held(_) => s
      case Finished => SetPhase(s, c, if s.calls[c].flush then Returned(true) else InBody)
  }

  /** What of a write gets through. */
  function Through(bytes: seq<Byte>, fate: Fate): (part: seq<Byte>)
    ensures part <= bytes && (fate.Succeeds? ==> part == bytes)
  {
    match fate
    case Succeeds => bytes
    case FailsAfter(k) => bytes[..Min(k, |bytes|)]
  }

  /** One write of `bytes` by call `c`. */
  function Send(s: State, c: nat, bytes: seq<Byte>, fate: Fate): State
    requires c in s.calls
  {
    var part := Through(bytes, fate);
    SetPhase(s, c, Returned(fate.Succeeds?)).(wire := s.wire + part, order := s.order + [c], parts := s.parts + [part])
  }

  /** A failed header write spends the once all the same. */
  function DoWriteHeader(s: State, c: nat, fate: Fate): State {
    if c in s.calls && s.calls[c].phase.InHeader? then
      Send(s, c, s.header + s.calls[c].payload, fate).(once := Finished)
    else s
  }

  function DoWriteBody(s: State, c: nat, fate: Fate): State {
    if c in s.calls && s.calls[c].phase.InBody? then Send(s, c, s.calls[c].payload, fate) else s
  }

  function Do(s: State, a: Action): State {
    match a
    case Begin(c, payload, flush) => DoBegin(s, c, payload, flush)
    case Enter(c) => DoEnter(s, c)
    case WriteHeader(c, fate) => DoWriteHeader(s, c, fate)
    case WriteBody(c, fate) => DoWriteBody(s, c, fate)
  }

  function Run(s: State, actions: seq<Action>): State
    decreases |actions|
  {
    if actions == [] then s else Run(Do(s, actions[0]), actions[1..])
  }

  // ---------- what every step keeps ----------

  /** What the k-th write was to put on the wire: the first one carries the header. */
  function Meant(s: State, k: nat): seq<Byte>
    requires k < |s.order|
  {
    var payload := if s.order[k] in s.calls then s.calls[s.order[k]].payload else [];
    if k == 0 then s.header + payload else payload
  }

  ghost predicate PhaseOk(s: State, c: nat, call: Call) {
    && (call.flush ==> call.payload == [])
    && (call.phase.InHeader? <==> s.once == Held(c))
    && (call.phase.InBody? || call.phase.Returned? ==> s.once.Finished?)
    && (call.phase.Returned? && !call.flush ==> c in s.order)
  }

  /** The k-th write is of a call that has returned; all of it got through if the call was content. */
  ghost predicate WriteOk(s: State, k: nat)
    requires k < |s.order| == |s.parts|
  {
    && s.order[k] in s.calls && s.calls[s.order[k]].phase.Returned?
    && s.parts[k] <= Meant(s, k)
    && (s.calls[s.order[k]].phase.ok ==> s.parts[k] == Meant(s, k))
  }

  ghost predicate Written(s: State) {
    && |s.order| == |s.parts| && s.wire == Flatten(s.parts)
    && (s.once.Finished? <==> s.order != [])
    && (forall k: nat | k < |s.order| :: WriteOk(s, k))
    && (forall j: nat, k: nat | j < k < |s.order| :: s.order[j] != s.order[k])
  }

  ghost predicate Phases(s: State) {
    (forall c | c in s.calls :: PhaseOk(s, c, s.calls[c])) && (s.once.Held? ==> s.once.call in s.calls)
  }

  ghost predicate Inv(s: State) {
    Written(s) && Phases(s)
  }

  /** A step that changes only the phase of a call that has not written yet. */
  lemma WrittenFrom(s: State, t: State)
    requires Written(s) && t.order == s.order && t.parts == s.parts && t.wire == s.wire && t.header == s.header
    requires t.once.Finished? == s.once.Finished?
    requires forall c | c in s.calls && s.calls[c].phase.Returned? :: c in t.calls && t.calls[c] == s.calls[c]
    ensures Written(t)
  {
    forall k: nat | k < |t.order|
      ensures WriteOk(t, k)
    {
      assert WriteOk(s, k);
    }
  }

  lemma BeginKept(s: State, c: nat, payload: seq<Byte>, flush: bool)
    requires Inv(s)
    ensures Inv(DoBegin(s, c, payload, flush))
  {
    WrittenFrom(s, DoBegin(s, c, payload, flush));
  }

  lemma EnterKept(s: State, c: nat)
    requires Inv(s)
    ensures Inv(DoEnter(s, c))
  {
    if c in s.calls && s.calls[c].phase.Entering? {
      assert PhaseOk(s, c, s.calls[c]);
      WrittenFrom(s, DoEnter(s, c));
    }
  }

  /** One more write at the end of the record. */
  lemma SendWritten(s: State, t: State, c: nat, fate: Fate)
    requires Written(s) && c in s.calls && !s.calls[c].phase.Returned?
    requires var meant := if s.order == [] then s.header + s.calls[c].payload else s.calls[c].payload;
      t == Send(s, c, meant, fate).(once := Finished)
    ensures Written(t)
  {
    var n := |s.order|;
    FlattenSnoc(s.parts, t.parts[n]);
    forall k: nat | k < n
      ensures WriteOk(t, k) && t.order[k] != c
    {
      assert WriteOk(s, k);
    }
    assert WriteOk(t, n);
  }

  lemma SendPhases(s: State, t: State, c: nat, fate: Fate, d: nat)
    requires Inv(s) && c in s.calls && (s.calls[c].phase.InHeader? || s.calls[c].phase.InBody?) && d in s.calls
    requires t == (if s.calls[c].phase.InHeader? then DoWriteHeader(s, c, fate) else DoWriteBody(s, c, fate))
    ensures PhaseOk(t, d, t.calls[d])
  {
    assert PhaseOk(s, d, s.calls[d]) && PhaseOk(s, c, s.calls[c]);
    assert t.order == s.order + [c];
  }

  lemma WriteKept(s: State, c: nat, fate: Fate)
    requires Inv(s) && c in s.calls && (s.calls[c].phase.InHeader? || s.calls[c].phase.InBody?)
    ensures Inv(if s.calls[c].phase.InHeader? then DoWriteHeader(s, c, fate) else DoWriteBody(s, c, fate))
  {
    var t := if s.calls[c].phase.InHeader? then DoWriteHeader(s, c, fate) else DoWriteBody(s, c, fate);
    assert PhaseOk(s, c, s.calls[c]);
    SendWritten(s, t, c, fate);
    forall d | d in t.calls
      ensures PhaseOk(t, d, t.calls[d])
    {
      SendPhases(s, t, c, fate, d);
    }
  }

  lemma WriteHeaderKept(s: State, c: nat, fate: Fate)
    requires Inv(s)
    ensures Inv(DoWriteHeader(s, c, fate))
  {
    if c in s.calls && s.calls[c].phase.InHeader? {
      WriteKept(s, c, fate);
    }
  }

  lemma WriteBodyKept(s: State, c: nat, fate: Fate)
    requires Inv(s)
    ensures Inv(DoWriteBody(s, c, fate))
  {
    if c in s.calls && s.calls[c].phase.InBody? {
      WriteKept(s, c, fate);
    }
  }

  lemma InvKept(s: State, a: Action)
    requires Inv(s)
    ensures Inv(Do(s, a))
  {
    match a
    case Begin(c, payload, flush) => BeginKept(s, c, payload, flush);
    case Enter(c) => EnterKept(s, c);
    case WriteHeader(c, fate) => WriteHeaderKept(s, c, fate);
    case WriteBody(c, fate) => WriteBodyKept(s, c, fate);
  }

  lemma {:induction false} InvOverRuns(s: State, actions: seq<Action>)
    requires Inv(s)
    ensures Inv(Run(s, actions)) && Run(s, actions).header == s.header
    decreases |actions|
  {
    if actions != [] {
      InvKept(s, actions[0]);
      InvOverRuns(Do(s, actions[0]), actions[1..]);
    }
  }

  // ---------- the promises, in every reachable state ----------

  /**
    Whichever call wins the race and whatever writes fail, the wire is what got through of one
    write of header and first payload, followed by what got through of the other payloads, in
    the order in which the calls reached the connection; all of it if their call succeeded.
  */
  lemma OneHeaderFirst(header: seq<Byte>, actions: seq<Action>, k: nat)
    requires k < |Run(Fresh(header), actions).order|
    ensures var s := Run(Fresh(header), actions);
      && |s.parts| == |s.order| && s.wire == Flatten(s.parts)
      && s.order[k] in s.calls && s.calls[s.order[k]].phase.Returned?
      && s.parts[k] <= (if k == 0 then header + s.calls[s.order[k]].payload else s.calls[s.order[k]].payload)
      && (s.calls[s.order[k]].phase.ok ==>
            s.parts[k] == if k == 0 then header + s.calls[s.order[k]].payload else s.calls[s.order[k]].payload)
  {
    InvOverRuns(Fresh(header), actions);
    assert WriteOk(Run(Fresh(header), actions), k);
  }

  /**
    The wire starts with the header exactly if the winner's write got all of it through, or
    the payloads behind a torn header happen to complete it.  So it does whenever the
    winner's call succeeded.
  */
  lemma HeaderFirstExactly(header: seq<Byte>, actions: seq<Action>)
    requires Run(Fresh(header), actions).order != []
    ensures var s := Run(Fresh(header), actions);
      && |s.parts| == |s.order| && s.order[0] in s.calls && s.calls[s.order[0]].phase.Returned?
      && (header <= s.wire <==>
            |header| <= |s.parts[0]| || header[|s.parts[0]|..] <= Flatten(s.parts[1..]))
      && (s.calls[s.order[0]].phase.ok ==> |header| <= |s.parts[0]| && header <= s.wire)
  {
    InvOverRuns(Fresh(header), actions);
    var s := Run(Fresh(header), actions);
    assert WriteOk(s, 0);
    FlattenHead(s.parts);
    TornPrefix(header, s.calls[s.order[0]].payload, s.parts[0], Flatten(s.parts[1..]));
  }

  lemma TornPrefix(header: seq<Byte>, payload: seq<Byte>, part: seq<Byte>, rest: seq<Byte>)
    requires part <= header + payload
    ensures header <= part + rest <==> |header| <= |part| || header[|part|..] <= rest
  {
    if |header| <= |part| {
      assert forall i | 0 <= i < |header| :: header[i] == (header + payload)[i] == part[i] == (part + rest)[i];
    } else {
      assert part == header[..|part|];
      if header[|part|..] <= rest {
        assert forall i | 0 <= i < |header| ::
            header[i] == if i < |part| then part[i] else header[|part|..][i - |part|];
      }
      if header <= part + rest {
        assert forall i | 0 <= i < |header| - |part| :: header[|part|..][i] == (part + rest)[|part| + i] == rest[i];
      }
    }
  }

  /** When the delayed flush fails before any byte, a later Write succeeds without a header. */
  lemma HeaderLost(header: seq<Byte>, payload: seq<Byte>)
    ensures var s := Run(Fresh(header), [Begin(0, [], true), Enter(0), WriteHeader(0, FailsAfter(0)),
                                         Begin(1, payload, false), Enter(1), WriteBody(1, Succeeds)]);
      s.wire == payload && 1 in s.calls && s.calls[1] == Call(payload, false, Returned(true))
  {
    var s1 := Do(Fresh(header), Begin(0, [], true));
    var s2 := Do(s1, Enter(0));
    var s3 := Do(s2, WriteHeader(0, FailsAfter(0)));
    assert s3 == State(header, Finished, map[0 := Call([], true, Returned(false))], [], [0], [[]]);
    var s4 := Do(s3, Begin(1, payload, false));
    var s5 := Do(s4, Enter(1));
    var s6 := Do(s5, WriteBody(1, Succeeds));
    assert s6.wire == payload;
    var later := [Begin(1, payload, false), Enter(1), WriteBody(1, Succeeds)] + [];
    RunThree(Fresh(header), Begin(0, [], true), Enter(0), WriteHeader(0, FailsAfter(0)), later);
    RunThree(s3, Begin(1, payload, false), Enter(1), WriteBody(1, Succeeds), []);
    assert [Begin(0, [], true), Enter(0), WriteHeader(0, FailsAfter(0)), Begin(1, payload, false), Enter(1),
          WriteBody(1, Succeeds)]
        == [Begin(0, [], true), Enter(0), WriteHeader(0, FailsAfter(0))] + later;
    assert Run(s6, []) == s6;
  }

  lemma RunThree(s: State, a: Action, b: Action, c: Action, rest: seq<Action>)
    ensures Run(s, [a, b, c] + rest) == Run(Do(Do(Do(s, a), b), c), rest)
  {
    assert ([a, b, c] + rest)[1..] == [b, c] + rest && ([b, c] + rest)[1..] == [c] + rest && ([c] + rest)[1..] == rest;
    assert Run(Do(Do(s, a), b), [c] + rest) == Run(Do(Do(Do(s, a), b), c), rest);
    assert Run(Do(s, a), [b, c] + rest) == Run(Do(Do(s, a), b), [c] + rest);
  }

  /** A Write that returned, with or without an error, has written at exactly one place of the order. */
  lemma WrittenOnce(header: seq<Byte>, actions: seq<Action>, c: nat)
    requires c in Run(Fresh(header), actions).calls
    requires var call := Run(Fresh(header), actions).calls[c]; call.phase.Returned? && !call.flush
    ensures var s := Run(Fresh(header), actions);
      exists k: nat :: k < |s.order| && s.order[k] == c && forall j: nat | j < |s.order| && j != k :: s.order[j] != c
  {
    InvOverRuns(Fresh(header), actions);
    var s := Run(Fresh(header), actions);
    assert PhaseOk(s, c, s.calls[c]);
    var k :| 0 <= k < |s.order| && s.order[k] == c;
  }

  /** The order only grows at its end, so calls made one after the other land one after the other. */
  lemma {:induction false} OrderGrows(s: State, actions: seq<Action>)
    ensures s.order <= Run(s, actions).order && s.parts <= Run(s, actions).parts
    decreases |actions|
  {
    if actions != [] {
      OrderGrows(Do(s, actions[0]), actions[1..]);
    }
  }

  /** The payloads of the calls that wrote, in order. */
  function Payloads(s: State, n: nat): seq<Byte>
    requires n <= |s.order|
  {
    if n == 0 then []
    else Payloads(s, n - 1) + if s.order[n - 1] in s.calls then s.calls[s.order[n - 1]].payload else []
  }

  ghost predicate AllSucceeded(s: State) {
    forall k: nat | k < |s.order| :: s.order[k] in s.calls && s.calls[s.order[k]].phase == Returned(true)
  }

  lemma PartsSnoc(parts: seq<seq<Byte>>, n: nat)
    requires 0 < n <= |parts|
    ensures Flatten(parts[..n]) == Flatten(parts[..n - 1]) + parts[n - 1]
  {
    assert parts[..n] == parts[..n - 1] + [parts[n - 1]];
    FlattenSnoc(parts[..n - 1], parts[n - 1]);
  }

  /** The part of the k-th write of a run without failures. */
  lemma PartIs(s: State, k: nat)
    requires Inv(s) && AllSucceeded(s) && k < |s.order|
    ensures k < |s.parts| && s.order[k] in s.calls
    ensures s.parts[k] == if k == 0 then s.header + s.calls[s.order[k]].payload else s.calls[s.order[k]].payload
  {
    assert WriteOk(s, k);
  }

  lemma {:induction false} AllThrough(s: State, n: nat)
    requires Inv(s) && AllSucceeded(s) && 0 < n <= |s.order|
    ensures n <= |s.parts| && Flatten(s.parts[..n]) == s.header + Payloads(s, n)
    decreases n
  {
    PartIs(s, n - 1);
    PartsSnoc(s.parts, n);
    Assoc(s.header, Payloads(s, n - 1), s.calls[s.order[n - 1]].payload);
    if n == 1 {
      Assoc([], s.header, s.calls[s.order[n - 1]].payload);
      assert s.parts[..0] == [];
    } else {
      AllThrough(s, n - 1);
    }
  }

  /**
    Put together: for every interleaving in which the winner's write got the header through,
    the server parses the request from the wire, and what is left is what got through behind
    it; all payloads in order, if no write failed.
  */
  lemma FlushRaceHarmless(hash: seq<Byte>, m: Metadata, actions: seq<Action>, known: Known, parse: ParseIP)
    requires |hash| == HASH_SIZE && known(hash)
    requires Sound(m.address) && (m.address.kind == DOMAIN_NAME ==> |m.address.domain| <= 253)
    requires var s := Run(Fresh(Header(hash, m)), actions);
      s.order != [] && s.parts != [] && |Header(hash, m)| <= |s.parts[0]|
    ensures var s, n := Run(Fresh(Header(hash, m)), actions), |Header(hash, m)|;
      && ParseRequest(s.wire, known, parse)
           == Parsed(Request(hash, Metadata(m.command, Received(m.address, parse))), n)
      && n <= |s.wire| && s.wire[n..] == s.parts[0][n..] + Flatten(s.parts[1..])
      && (AllSucceeded(s) ==> s.wire[n..] == Payloads(s, |s.order|))
  {
    var header := Header(hash, m);
    var s := Run(Fresh(header), actions);
    InvOverRuns(Fresh(header), actions);
    HeaderFirstExactly(header, actions);
    FlattenHead(s.parts);
    BehindHeader(header, s.wire, s.parts[0], Flatten(s.parts[1..]));
    RequestArrives(hash, m, s.wire[|header|..], known, parse);
    if AllSucceeded(s) {
      AllThrough(s, |s.order|);
      assert s.parts[..|s.order|] == s.parts;
      BehindHeader(header, s.wire, header, Payloads(s, |s.order|));
      assert header[|header|..] == [] && [] + Payloads(s, |s.order|) == Payloads(s, |s.order|);
    }
  }

  lemma BehindHeader(header: seq<Byte>, wire: seq<Byte>, part: seq<Byte>, rest: seq<Byte>)
    requires header <= wire && wire == part + rest && |header| <= |part|
    ensures wire == header + wire[|header|..] && wire[|header|..] == part[|header|..] + rest
  {
  }

  // ---------- the connection object ----------

  /** The next call can be numbered by how many there were. */
  ghost predicate Numbered(s: State) {
    forall c | c in s.calls :: c < |s.calls| && s.calls[c].phase.Returned?
  }

  /** The wire has got these bytes at its end, all of them or, if the write failed, the first few. */
  ghost predicate Grown(before: seq<Byte>, after: seq<Byte>, bytes: seq<Byte>, fate: Fate) {
    match fate
    case Succeeds => after == before + bytes
    case FailsAfter(k) => after == before + if k < |bytes| then bytes[..k] else bytes
  }

  class OutboundConn {
    const hash: seq<Byte>
    const metadata: Metadata
    var headerWrittenOnce: bool
    var wire: seq<Byte>
    var sent: nat
    ghost var model: State

    ghost predicate Valid()
      reads this
    {
      && Inv(model) && Numbered(model) && model.header == Header(hash, metadata)
      && wire == model.wire && headerWrittenOnce == model.once.Finished? && !model.once.Held?
    }

    constructor (hash: seq<Byte>, metadata: Metadata)
      ensures Valid() && model == Fresh(Header(hash, metadata))
    {
      this.hash, this.metadata, headerWrittenOnce, wire, sent := hash, metadata, false, [], 0;
      model := Fresh(Header(hash, metadata));
    }

    /** WriteHeader: true if this call wrote the header; an error goes to whoever ran the once. */
    method WriteHeaderOnce(payload: seq<Byte>, fate: Fate) returns (written: bool, failed: bool)
      modifies this`headerWrittenOnce, this`wire
      ensures headerWrittenOnce
      ensures old(headerWrittenOnce) ==> !written && !failed && wire == old(wire)
      ensures !old(headerWrittenOnce) ==>
        written == fate.Succeeds? && failed == !written
            && wire == old(wire) + Through(Header(hash, metadata) + payload, fate)
    {
      if headerWrittenOnce {
        return false, false;
      }
      var buf := hash + CRLF;
      buf := buf + MarshalMetadata(metadata);
      buf := buf + CRLF;
      buf := buf + payload;
      headerWrittenOnce, wire := true, wire + Through(buf, fate);
      return fate.Succeeds?, !fate.Succeeds?;
    }

    /** The delayed flush. */
    method Flush(fate: Fate)
      requires Valid()
      modifies this`headerWrittenOnce, this`wire, this`model
      ensures Valid()
      ensures model == Run(old(model), CallSteps(|old(model).calls|, [], true, fate))
      ensures headerWrittenOnce
      ensures old(headerWrittenOnce) ==> wire == old(wire)
      ensures !old(headerWrittenOnce) ==> Grown(old(wire), wire, Header(hash, metadata), fate)
    {
      assert Header(hash, metadata) + [] == Header(hash, metadata);
      OneCall(model, |model.calls|, [], true, fate);
      model := Run(model, CallSteps(|model.calls|, [], true, fate));
      var _, _ := WriteHeaderOnce([], fate);
    }

    /** Bytes sent behind the header in the same write are not counted as sent. */
    method Write(p: seq<Byte>, fate: Fate) returns (ok: bool, n: nat)
      requires Valid()
      modifies this`headerWrittenOnce, this`wire, this`model, this`sent
      ensures Valid()
      ensures model == Run(old(model), CallSteps(|old(model).calls|, p, false, fate))
      ensures ok == fate.Succeeds? && (ok ==> n == |p|) && n <= |p|
      ensures sent == old(sent) + if old(headerWrittenOnce) then n else 0
      ensures headerWrittenOnce
      ensures Grown(old(wire), wire, if old(headerWrittenOnce) then p else Header(hash, metadata) + p, fate)
      ensures if old(headerWrittenOnce) then wire == old(wire) + p[..n] else ok || n == 0
    {
      OneCall(model, |model.calls|, p, false, fate);
      model := Run(model, CallSteps(|model.calls|, p, false, fate));
      var written, failed := WriteHeaderOnce(p, fate);
      if failed {
        return false, 0;
      }
      if written {
        return true, |p|;
      }
      var part := Through(p, fate);
      wire := wire + part;
      sent := sent + |part|;
      return fate.Succeeds?, |part|;
    }
  }

  /** The steps of one call; those for which it is not at their point do nothing. */
  function CallSteps(c: nat, payload: seq<Byte>, flush: bool, fate: Fate): seq<Action> {
    [Begin(c, payload, flush), Enter(c), WriteHeader(c, fate)] + [WriteBody(c, fate)]
  }

  /** A call that runs while no other does. */
  lemma OneCall(s: State, c: nat, payload: seq<Byte>, flush: bool, fate: Fate)
    requires Inv(s) && Numbered(s) && !s.once.Held? && c == |s.calls| && (flush ==> payload == [])
    ensures var t := Run(s, CallSteps(c, payload, flush, fate));
      && Inv(t) && Numbered(t) && t.once.Finished? && t.header == s.header
      && t.wire == s.wire + if s.once.NotStarted? then Through(s.header + payload, fate)
                            else if flush then [] else Through(payload, fate)
  {
    InvOverRuns(s, CallSteps(c, payload, flush, fate));
    RunThree(s, Begin(c, payload, flush), Enter(c), WriteHeader(c, fate), [WriteBody(c, fate)]);
    var u := Do(Do(Do(s, Begin(c, payload, flush)), Enter(c)), WriteHeader(c, fate));
    assert [WriteBody(c, fate)][1..] == [];
    assert Run(u, [WriteBody(c, fate)]) == Run(Do(u, WriteBody(c, fate)), []);
    OneCallCalls(s, c, payload, flush, fate);
    assert s.wire + [] == s.wire;
  }

  /** The calls differ in call `c` only, which the second map has. */
  ghost predicate Differ(before: map<nat, Call>, after: map<nat, Call>, c: nat) {
    c in after && after == before[c := after[c]]
  }

  lemma BeginCalls(s: State, c: nat, payload: seq<Byte>, flush: bool)
    requires c !in s.calls
    ensures var t := DoBegin(s, c, payload, flush);
      Differ(s.calls, t.calls, c) && t.calls[c].phase.Entering? && t.once == s.once
  {
  }

  lemma EnterCalls(s: State, c: nat)
    requires c in s.calls && s.calls[c].phase.Entering? && !s.once.Held?
    ensures Differ(s.calls, DoEnter(s, c).calls, c) && !DoEnter(s, c).calls[c].phase.Entering?
  {
  }

  lemma WritesCalls(s: State, c: nat, fate: Fate)
    requires c in s.calls && !s.calls[c].phase.Entering?
    ensures var t := DoWriteHeader(s, c, fate);
      Differ(s.calls, t.calls, c) && (t.calls[c].phase.InBody? || t.calls[c].phase.Returned?)
    ensures var t := DoWriteBody(s, c, fate);
      Differ(s.calls, t.calls, c) && (!s.calls[c].phase.InHeader? ==> t.calls[c].phase.Returned?)
  {
  }

  lemma DifferTwice(a: map<nat, Call>, b: map<nat, Call>, d: map<nat, Call>, c: nat)
    requires Differ(a, b, c) && Differ(b, d, c)
    ensures Differ(a, d, c)
  {
  }

  lemma OneCallCalls(s: State, c: nat, payload: seq<Byte>, flush: bool, fate: Fate)
    requires Numbered(s) && !s.once.Held? && c == |s.calls| && c !in s.calls
    ensures var t := Do(Do(Do(Do(s, Begin(c, payload, flush)), Enter(c)), WriteHeader(c, fate)), WriteBody(c, fate));
      Numbered(t)
  {
    var s1 := DoBegin(s, c, payload, flush);
    BeginCalls(s, c, payload, flush);
    var s2 := DoEnter(s1, c);
    EnterCalls(s1, c);
    DifferTwice(s.calls, s1.calls, s2.calls, c);
    var s3 := DoWriteHeader(s2, c, fate);
    WritesCalls(s2, c, fate);
    DifferTwice(s.calls, s2.calls, s3.calls, c);
    var s4 := DoWriteBody(s3, c, fate);
    WritesCalls(s3, c, fate);
    DifferTwice(s.calls, s3.calls, s4.calls, c);
    NumberedOneMore(s.calls, s4.calls, c);
  }

  lemma NumberedOneMore(before: map<nat, Call>, after: map<nat, Call>, c: nat)
    requires (forall b | b in before :: b < |before| && before[b].phase.Returned?) && c == |before|
    requires Differ(before, after, c) && after[c].phase.Returned?
    ensures forall b | b in after :: b < |after| && after[b].phase.Returned?
  {
    assert c !in before;
    assert after.Keys == before.Keys + {c};
  }
}
