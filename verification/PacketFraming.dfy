/**
  UDP packets on a stream (tunnel/trojan/packet.go): address, length, CRLF, payload.
*/
module PacketFraming {
  import opened Bytes
  import opened Address
  import opened Seqs

  const MAX_PACKET_SIZE := 8192

  datatype Packet = Packet(address: Address, payload: seq<Byte>)

  /** The length is a uint16; the packet is written whatever Marshal made of the address. */
  function Frame(p: Packet): seq<Byte> {
    Marshal(p.address).bytes + PutUint16(|p.payload|) + CRLF + p.payload
  }

  datatype Result = Got(packet: Packet) | TooLarge | Broken | Crashed

  datatype Reply = Reply(result: Result, next: nat)

  predicate Exceeds(length: int, buffer: nat) {
    buffer < length || length > MAX_PACKET_SIZE
  }

  /** Behind the length: skip the line end, then drain or read the payload. */
  function ReadPayload(data: seq<Byte>, p: nat, a: Address, length: nat, buffer: nat): Reply {
    match Take(data, p, 2)
    case Parsed(_, q) =>
      if Exceeds(length, buffer) then Reply(TooLarge, if q + length <= |data| then q + length else |data|)
      else (
        match Take(data, q, length)
        case Parsed(payload, next) => Reply(Got(Packet(a, payload)), next)
        case _ => Reply(Broken, |data|)
      )
    case _ => Reply(Broken, |data|)
  }

  /** An unknown type is noticed after its byte; any other failure is the end of the stream. */
  function AfterBadAddress(data: seq<Byte>, p: nat): nat {
    if p < |data| && data[p] != IPV4 && data[p] != IPV6 && data[p] != DOMAIN_NAME then p + 1 else |data|
  }

  /** One ReadWithMetadata into a buffer of the given size. */
  function ReadPacket(data: seq<Byte>, p: nat, buffer: nat, parse: ParseIP): Reply {
    match Unmarshal(data, p, parse)
    case Parsed(a, q) => (
      match Take(data, q, 2)
      case Parsed(l, next) => ReadPayload(data, next, a, Uint16(l), buffer)
      case _ => Reply(Broken, |data|)
    )
    case Failed => Reply(Broken, AfterBadAddress(data, p))
    case Panicked => Reply(Crashed, p)
  }

  // ---------- byte by byte ----------

  /** A frame: the address, the length, CR, LF, the payload. */
  ghost predicate Framed(f: seq<Byte>, address: Address, payload: seq<Byte>) {
    var a := Marshal(address).bytes;
    && |f| == |a| + 4 + |payload| && f[..|a|] == a
    && Number(f[|a|], f[|a| + 1]) == |payload| % 65536 && f[|a| + 2] == 13 && f[|a| + 3] == 10
    && f[|a| + 4..] == payload
  }

  lemma FrameBytes(p: Packet)
    ensures Framed(Frame(p), p.address, p.payload)
  {
    NetworkOrder(|p.payload|);
    var a := Marshal(p.address).bytes;
    assert Frame(p)[|a|..|a| + 2] == PutUint16(|p.payload|);
  }

  /** An address stands at `p` with four more bytes behind it. */
  predicate Announced(data: seq<Byte>, p: nat) {
    Complete(data, p) && EndOf(data, p) + 4 <= |data|
  }

  /** The length that those bytes announce, and where the payload begins. */
  function LengthAt(data: seq<Byte>, p: nat): int
    requires Announced(data, p)
  {
    Number(data[EndOf(data, p)], data[EndOf(data, p) + 1])
  }

  function BodyAt(data: seq<Byte>, p: nat): nat
    requires Announced(data, p)
  {
    EndOf(data, p) + 4
  }

  /** What a read at `p` into a buffer of this size must come to. */
  ghost predicate Answers(data: seq<Byte>, p: nat, buffer: nat, parse: ParseIP, r: Reply) {
    && (r.result.Got? <==>
          && Announced(data, p) && LengthAt(data, p) <= Smaller(buffer, 8192)
          && BodyAt(data, p) + LengthAt(data, p) <= |data|)
    && (r.result.Got? ==>
          var end := BodyAt(data, p) + LengthAt(data, p);
          Stands(data, p, r.result.packet.address, parse) && r.result.packet.payload == data[BodyAt(data, p)..end]
          && r.next == end)
    && (r.result.TooLarge? <==> Announced(data, p) && LengthAt(data, p) > Smaller(buffer, 8192))
    && (r.result.TooLarge? ==> r.next == Smaller(BodyAt(data, p) + LengthAt(data, p), |data|))
    && (r.result.Crashed? <==>
          p + 2 <= |data| && data[p] == 3 && (data[p + 1] == 254 || (data[p + 1] == 255 && p + 3 <= |data|)))
    && (r.result.Broken? ==>
          r.next == if p < |data| && data[p] != 1 && data[p] != 3 && data[p] != 4 then p + 1 else |data|)
  }

  function Smaller(a: int, b: int): (r: int)
    ensures r <= a && r <= b && (r == a || r == b)
  {
    if a < b then a else b
  }

  lemma ReadsPacketExactly(data: seq<Byte>, p: nat, buffer: nat, parse: ParseIP)
    ensures Answers(data, p, buffer, parse, ReadPacket(data, p, buffer, parse))
  {
    ReadsExactly(data, p, parse);
    PanicsExactly(data, p, parse);
    if Complete(data, p) {
      var q := EndOf(data, p);
      assert q + 2 <= |data| ==> data[q..q + 2][0] == data[q] && data[q..q + 2][1] == data[q + 1];
    }
  }

  ghost predicate Sendable(p: Packet) {
    Sound(p.address) && (p.address.kind == DOMAIN_NAME ==> |p.address.domain| <= 253)
  }

  /** What the reader makes of a packet: itself, or the error for one that is too large. */
  function Expected(p: Packet, buffer: nat, parse: ParseIP): Result {
    if |p.payload| > buffer || |p.payload| > MAX_PACKET_SIZE then TooLarge
    else Got(Packet(Received(p.address, parse), p.payload))
  }

  lemma PayloadRead(data: seq<Byte>, p: nat, a: Address, payload: seq<Byte>, length: nat, buffer: nat)
    requires p + 2 + |payload| <= |data| && data[p + 2..p + 2 + |payload|] == payload && length <= |payload|
    ensures ReadPayload(data, p, a, length, buffer)
         == Reply(if Exceeds(length, buffer) then TooLarge else Got(Packet(a, payload[..length])), p + 2 + length)
  {
    assert data[p + 2..p + 2 + length] == payload[..length];
  }

  lemma AfterAddress(data: seq<Byte>, p: nat, a: Address, q: nat, l: seq<Byte>, buffer: nat, parse: ParseIP)
    requires Unmarshal(data, p, parse) == Parsed(a, q) && q + 2 <= |data| && data[q..q + 2] == l
    ensures ReadPacket(data, p, buffer, parse) == ReadPayload(data, q + 2, a, Uint16(l), buffer)
  {
  }

  lemma FrameLayout(before: seq<Byte>, m: seq<Byte>, l: seq<Byte>, payload: seq<Byte>, rest: seq<Byte>)
    requires |l| == 2
    ensures var data := before + (m + l + CRLF + payload) + rest;
      var q := |before| + |m|;
      && data == before + m + (l + CRLF + payload + rest)
      && q + 4 + |payload| <= |data| && data[q..q + 2] == l && data[q + 4..q + 4 + |payload|] == payload
  {
    var data := before + (m + l + CRLF + payload) + rest;
    assert data == before + m + (l + CRLF + payload + rest);
  }

  lemma AddressRead(before: seq<Byte>, p: Packet, rest: seq<Byte>, parse: ParseIP)
    requires Sendable(p)
    ensures var data := before + Frame(p) + rest;
      var q, n := |before| + |Marshal(p.address).bytes|, |p.payload|;
      && Unmarshal(data, |before|, parse) == Parsed(Received(p.address, parse), q)
      && q + 4 + n <= |data| && data[q..q + 2] == PutUint16(n) && data[q + 4..q + 4 + n] == p.payload
  {
    var m, l := Marshal(p.address).bytes, PutUint16(|p.payload|);
    FrameLayout(before, m, l, p.payload, rest);
    Arrives(p.address, before, l + CRLF + p.payload + rest, parse);
  }

  /** The reply to a frame, whose payload is announced modulo 2^16. */
  function FrameReply(start: nat, p: Packet, buffer: nat, parse: ParseIP): Reply {
    var length := |p.payload| % 65536;
    Reply(if Exceeds(length, buffer) then TooLarge else Got(Packet(Received(p.address, parse), p.payload[..length])),
          start + |Marshal(p.address).bytes| + 4 + length)
  }

  /** Reading a frame, wherever it stands: the length decides where the reader stops. */
  lemma FrameRead(before: seq<Byte>, p: Packet, rest: seq<Byte>, buffer: nat, parse: ParseIP)
    requires Sendable(p)
    ensures ReadPacket(before + Frame(p) + rest, |before|, buffer, parse) == FrameReply(|before|, p, buffer, parse)
  {
    AddressRead(before, p, rest, parse);
    FrameReadAt(before + Frame(p) + rest, |before|, p, buffer, parse);
  }

  lemma FrameReadAt(data: seq<Byte>, start: nat, p: Packet, buffer: nat, parse: ParseIP)
    requires var q, n := start + |Marshal(p.address).bytes|, |p.payload|;
      && Unmarshal(data, start, parse) == Parsed(Received(p.address, parse), q)
      && q + 4 + n <= |data| && data[q..q + 2] == PutUint16(n) && data[q + 4..q + 4 + n] == p.payload
    ensures ReadPacket(data, start, buffer, parse) == FrameReply(start, p, buffer, parse)
  {
    var q, a := start + |Marshal(p.address).bytes|, Received(p.address, parse);
    AfterAddress(data, start, a, q, PutUint16(|p.payload|), buffer, parse);
    Uint16Back(|p.payload|);
    PayloadRead(data, q + 2, a, p.payload, |p.payload| % 65536, buffer);
  }

  lemma ReplyExactly(start: nat, p: Packet, buffer: nat, parse: ParseIP)
    ensures FrameReply(start, p, buffer, parse).next == start + |Frame(p)| <==> |p.payload| <= 65535
    ensures |p.payload| <= 65535 ==> FrameReply(start, p, buffer, parse).result == Expected(p, buffer, parse)
  {
    assert p.payload[..|p.payload|] == p.payload;
  }

  /** The reader stops exactly at the end of the frame if and only if the length fits in 16 bits. */
  lemma AlignedExactly(before: seq<Byte>, p: Packet, rest: seq<Byte>, buffer: nat, parse: ParseIP)
    requires Sendable(p)
    ensures ReadPacket(before + Frame(p) + rest, |before|, buffer, parse).next == |before| + |Frame(p)| <==>
      |p.payload| <= 65535
    ensures |p.payload| <= 65535 ==>
      ReadPacket(before + Frame(p) + rest, |before|, buffer, parse)
          == Reply(Expected(p, buffer, parse), |before| + |Frame(p)|)
  {
    FrameRead(before, p, rest, buffer, parse);
    ReplyExactly(|before|, p, buffer, parse);
  }

  // ---------- whole streams ----------

  function Stream(packets: seq<Packet>): seq<Byte> {
    if packets == [] then [] else Frame(packets[0]) + Stream(packets[1..])
  }

  /** The results of one read per buffer size. */
  function ReadAll(data: seq<Byte>, p: nat, buffers: seq<nat>, parse: ParseIP): seq<Result>
    decreases |buffers|
  {
    if buffers == [] then []
    else
      var r := ReadPacket(data, p, buffers[0], parse);
      [r.result] + ReadAll(data, r.next, buffers[1..], parse)
  }

  function ExpectedAll(packets: seq<Packet>, buffers: seq<nat>, parse: ParseIP): seq<Result>
    requires |buffers| <= |packets|
    decreases |buffers|
  {
    if buffers == [] then []
    else [Expected(packets[0], buffers[0], parse)] + ExpectedAll(packets[1..], buffers[1..], parse)
  }

  /** One round of reading, on a stream that is any sequence of bytes. */
  lemma ReadRound(data: seq<Byte>, p: nat, next: nat, packets: seq<Packet>, buffers: seq<nat>, parse: ParseIP)
    requires 0 < |buffers| <= |packets|
    requires ReadPacket(data, p, buffers[0], parse) == Reply(Expected(packets[0], buffers[0], parse), next)
    requires ReadAll(data, next, buffers[1..], parse) == ExpectedAll(packets[1..], buffers[1..], parse)
    ensures ReadAll(data, p, buffers, parse) == ExpectedAll(packets, buffers, parse)
  {
  }

  /** The k-th read returns the k-th packet, or the error for it, whatever the buffer sizes before. */
  lemma {:induction false} StaysAligned(before: seq<Byte>, packets: seq<Packet>, rest: seq<Byte>,
                                        buffers: seq<nat>, parse: ParseIP)
    requires |buffers| <= |packets|
    requires forall k | 0 <= k < |packets| :: Sendable(packets[k]) && |packets[k].payload| <= 65535
    ensures ReadAll(before + Stream(packets) + rest, |before|, buffers, parse) == ExpectedAll(packets, buffers, parse)
    decreases |packets|
  {
    if buffers != [] {
      var f, tail := Frame(packets[0]), Stream(packets[1..]);
      AssocFour(before, f, tail, rest);
      AlignedExactly(before, packets[0], tail + rest, buffers[0], parse);
      StaysAligned(before + f, packets[1..], rest, buffers[1..], parse);
      ReadRound(before + Stream(packets) + rest, |before|, |before + f|, packets, buffers, parse);
    }
  }

  lemma {:induction false} ExpectedAt(packets: seq<Packet>, buffers: seq<nat>, parse: ParseIP, k: nat)
    requires k < |buffers| <= |packets|
    ensures |ExpectedAll(packets, buffers, parse)| == |buffers|
    ensures ExpectedAll(packets, buffers, parse)[k] == Expected(packets[k], buffers[k], parse)
    decreases |buffers|
  {
    if |buffers| > 1 {
      ExpectedAt(packets[1..], buffers[1..], parse, if k == 0 then 0 else k - 1);
    }
  }

  lemma FromTheStart(packets: seq<Packet>, rest: seq<Byte>, buffers: seq<nat>, parse: ParseIP)
    requires |buffers| <= |packets|
    requires forall i | 0 <= i < |packets| :: Sendable(packets[i]) && |packets[i].payload| <= 65535
    ensures ReadAll(Stream(packets) + rest, 0, buffers, parse) == ExpectedAll(packets, buffers, parse)
  {
    StaysAligned([], packets, rest, buffers, parse);
    EmptyFirst(Stream(packets));
  }

  lemma KthRead(packets: seq<Packet>, rest: seq<Byte>, buffers: seq<nat>, parse: ParseIP, k: nat)
    requires k < |buffers| <= |packets|
    requires forall i | 0 <= i < |packets| :: Sendable(packets[i]) && |packets[i].payload| <= 65535
    ensures var results := ReadAll(Stream(packets) + rest, 0, buffers, parse);
      |results| == |buffers| && results[k] == Expected(packets[k], buffers[k], parse)
  {
    FromTheStart(packets, rest, buffers, parse);
    ExpectedAt(packets, buffers, parse, k);
  }

  // ---------- the connection object ----------

  class PacketConn {
    var input: seq<Byte>
    var pos: nat
    var wire: seq<Byte>
    ghost var sent: seq<Packet>

    ghost predicate Valid()
      reads this
    {
      pos <= |input| && wire == Stream(sent)
    }

    constructor (input: seq<Byte>)
      ensures Valid() && this.input == input && pos == 0 && sent == []
    {
      this.input, pos, wire, sent := input, 0, [], [];
    }

    method WriteWithMetadata(payload: seq<Byte>, address: Address) returns (n: nat)
      requires Valid()
      modifies this`wire, this`sent
      ensures Valid() && sent == old(sent) + [Packet(address, payload)] && n == |payload|
      ensures old(wire) <= wire && Framed(wire[|old(wire)|..], address, payload)
    {
      FrameBytes(Packet(address, payload));
      var w := Marshal(address).bytes;
      var length := |payload|;
      w := w + PutUint16(length);
      w := w + CRLF;
      w := w + payload;
      StreamSnoc(sent, Packet(address, payload));
      wire := wire + w;
      sent := sent + [Packet(address, payload)];
      n := length;
    }

    /** io.ReadFull */
    method ReadFull(n: nat) returns (ok: bool, bytes: seq<Byte>)
      requires Valid()
      modifies this`pos
      ensures Valid()
      ensures ok ==> Take(input, old(pos), n) == Parsed(bytes, pos) && |bytes| == n
      ensures !ok ==> Take(input, old(pos), n) == Failed && pos == |input|
    {
      if pos + n > |input| {
        pos := |input|;
        return false, [];
      }
      bytes, pos, ok := input[pos..pos + n], pos + n, true;
    }

    /** Reads the next packet into the caller's buffer; what lies behind the payload in it stays. */
    method ReadWithMetadata(payload: array<Byte>, parse: ParseIP) returns (n: nat, result: Result)
      requires Valid()
      modifies this`pos, payload
      ensures Valid()
      ensures Reply(result, pos) == ReadPacket(input, old(pos), payload.Length, parse)
      ensures Answers(input, old(pos), payload.Length, parse, Reply(result, pos))
      ensures n <= payload.Length && payload[n..] == old(payload[n..])
      ensures if result.Got? then payload[..n] == result.packet.payload else n == 0
    {
      ReadsPacketExactly(input, pos, payload.Length, parse);
      n, result := ReadFields(payload, parse);
    }

    /** Field by field. */
    method ReadFields(payload: array<Byte>, parse: ParseIP) returns (n: nat, result: Result)
      requires Valid()
      modifies this`pos, payload
      ensures Valid()
      ensures Reply(result, pos) == ReadPacket(input, old(pos), payload.Length, parse)
      ensures n <= payload.Length && payload[n..] == old(payload[n..])
      ensures if result.Got? then payload[..n] == result.packet.payload else n == 0
    {
      n := 0;
      var a := Unmarshal(input, pos, parse);
      if a.Panicked? {
        return 0, Crashed;
      }
      if a.Failed? {
        pos := AfterBadAddress(input, pos);
        return 0, Broken;
      }
      Advances(input, pos, parse);
      pos := a.next;
      var ok, lengthBuf := ReadFull(2);
      if !ok {
        return 0, Broken;
      }
      var length: nat := Uint16(lengthBuf);
      var crlf, bytes;
      ok, crlf := ReadFull(2);
      if !ok {
        return 0, Broken;
      }
      if payload.Length < length || length > MAX_PACKET_SIZE {
        pos := if pos + length <= |input| then pos + length else |input|;
        return 0, TooLarge;
      }
      ok, bytes := ReadFull(length);
      if !ok {
        return 0, Broken;
      }
      forall i | 0 <= i < length {
        payload[i] := bytes[i];
      }
      assert payload[..length] == bytes;
      return length, Got(Packet(a.value, bytes));
    }
  }

  lemma {:induction false} StreamSnoc(packets: seq<Packet>, p: Packet)
    ensures Stream(packets + [p]) == Stream(packets) + Frame(p)
    decreases |packets|
  {
    if packets == [] {
      assert packets + [p] == [p] && [p][1..] == [];
    } else {
      assert (packets + [p])[1..] == packets[1..] + [p];
      StreamSnoc(packets[1..], p);
    }
  }
}
