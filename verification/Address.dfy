/**
  Addresses on the wire (tunnel/metadata.go): ATYP, the address, the port, as in section 5 of
  RFC 1928.  net.ParseIP is a parameter: it gives 16 bytes for an IP literal and none otherwise.
*/
module Address {
  import opened Bytes

  const IPV4 := 1
  const DOMAIN_NAME := 3
  const IPV6 := 4

  datatype Address = Address(kind: Byte, domain: seq<Byte>, ip: seq<Byte>, port: int)

  type ParseIP = seq<Byte> -> seq<Byte>

  const V4_IN_V6: seq<Byte> := [0, 0, 0, 0, 0, 0, 0, 0, 0, 0, 255, 255]

  /** net.IP.To4 and To16; the empty sequence is nil. */
  function To4(ip: seq<Byte>): (r: seq<Byte>)
    ensures r == [] || |r| == 4
  {
    if |ip| == 4 then ip
    else if |ip| == 16 && ip[..12] == V4_IN_V6 then ip[12..]
    else []
  }

  function To16(ip: seq<Byte>): (r: seq<Byte>)
    ensures r == [] || |r| == 16
  {
    if |ip| == 4 then V4_IN_V6 + ip
    else if |ip| == 16 then ip
    else []
  }

  // ---------- writing ----------

  datatype Marshalled = Marshalled(bytes: seq<Byte>, ok: bool)

  /** The bytes written, also those written before an invalid type is noticed. */
  function Marshal(a: Address): Marshalled {
    if a.kind == DOMAIN_NAME then
      Marshalled([a.kind] + [|a.domain| % 256] + a.domain + PutUint16(a.port), true)
    else if a.kind == IPV4 then
      Marshalled([a.kind] + To4(a.ip) + PutUint16(a.port), true)
    else if a.kind == IPV6 then
      Marshalled([a.kind] + To16(a.ip) + PutUint16(a.port), true)
    else
      Marshalled([a.kind], false)
  }

  // ---------- reading ----------

  function UnmarshalIP(data: seq<Byte>, p: nat, kind: Byte, size: nat): Parse<Address> {
    match Take(data, p, size + 2)
    case Parsed(buf, next) => Parsed(Address(kind, [], buf[..size], Uint16(buf[size..])), next)
    case _ => Failed
  }

  /** A host name that is an IP literal becomes an address of that kind. */
  function FromHost(host: seq<Byte>, port: int, parse: ParseIP): Address {
    var ip := parse(host);
    if ip == [] then Address(DOMAIN_NAME, host, [], port)
    else Address(if To4(ip) != [] then IPV4 else IPV6, [], ip, port)
  }

  /** The size of the buffer is byte arithmetic: for 254 and 255 it is too small for the host. */
  function UnmarshalDomain(data: seq<Byte>, p: nat, parse: ParseIP): Parse<Address> {
    match Take(data, p, 1)
    case Parsed(l, _) => (
      var length := l[0];
      match Take(data, p + 1, (length + 2) % 256)
      case Parsed(buf, next) =>
        if length > |buf| then Panicked
        else Parsed(FromHost(buf[..length], Uint16(buf[length..]), parse), next)
      case _ => Failed
    )
    case _ => Failed
  }

  function Unmarshal(data: seq<Byte>, p: nat, parse: ParseIP): Parse<Address> {
    match Take(data, p, 1)
    case Parsed(k, next) =>
      if k[0] == IPV4 then UnmarshalIP(data, next, k[0], 4)
      else if k[0] == IPV6 then UnmarshalIP(data, next, k[0], 16)
      else if k[0] == DOMAIN_NAME then UnmarshalDomain(data, next, parse)
      else Failed
    case _ => Failed
  }

  // ---------- byte by byte ----------

  /** An IPv4 address has four bytes, or sixteen of which the first twelve are the mapping prefix. */
  lemma FourBytes(ip: seq<Byte>)
    ensures To4(ip) != [] <==>
      || |ip| == 4
      || (|ip| == 16 && (forall i | 0 <= i < 10 :: ip[i] == 0) && ip[10] == 255 && ip[11] == 255)
    ensures To4(ip) != [] ==> To4(ip) == ip[|ip| - 4..]
    ensures To16(ip) != [] <==> |ip| == 4 || |ip| == 16
    ensures To16(ip) != [] ==> To16(ip)[16 - |ip|..] == ip && (|ip| == 4 ==> To4(To16(ip)) == ip)
  {
    if |ip| == 16 {
      var head := ip[..12];
      assert forall i | 0 <= i < 12 :: head[i] == ip[i];
      assert head == V4_IN_V6 <==> (forall i | 0 <= i < 10 :: ip[i] == 0) && ip[10] == 255 && ip[11] == 255;
    } else if |ip| == 4 {
      assert ip[0..] == ip && (V4_IN_V6 + ip)[12..] == ip && (V4_IN_V6 + ip)[..12] == V4_IN_V6;
    }
  }

  /** The last two bytes are the port. */
  ghost predicate EndsWithPort(bytes: seq<Byte>, port: int) {
    |bytes| >= 2 && Number(bytes[|bytes| - 2], bytes[|bytes| - 1]) == port % 65536
  }

  /** What is on the wire for an address of each type. */
  lemma WireBytes(a: Address)
    ensures var b := Marshal(a).bytes;
      && (Marshal(a).ok <==> a.kind == 1 || a.kind == 3 || a.kind == 4)
      && |b| > 0 && b[0] == a.kind
      && (a.kind == 1 && To4(a.ip) != [] ==> |b| == 7 && b[1..5] == To4(a.ip) && EndsWithPort(b, a.port))
      && (a.kind == 4 && To16(a.ip) != [] ==> |b| == 19 && b[1..17] == To16(a.ip) && EndsWithPort(b, a.port))
      && (a.kind == 3 && |a.domain| < 256 ==>
            && |b| == |a.domain| + 4 && b[1] == |a.domain| && b[2..|b| - 2] == a.domain
            && EndsWithPort(b, a.port))
  {
    NetworkOrder(a.port);
  }

  /** The type byte at `p` has a complete address behind it, and a name of at most 253 bytes. */
  predicate Complete(data: seq<Byte>, p: nat) {
    || (p + 7 <= |data| && data[p] == 1)
    || (p + 19 <= |data| && data[p] == 4)
    || (p + 2 <= |data| && data[p] == 3 && data[p + 1] <= 253 && p + 4 + data[p + 1] <= |data|)
  }

  /** Where that address ends. */
  function EndOf(data: seq<Byte>, p: nat): nat
    requires Complete(data, p)
  {
    if data[p] == 1 then p + 7 else if data[p] == 4 then p + 19 else p + 4 + data[p + 1]
  }

  /** `a` is what stands there. */
  ghost predicate Stands(data: seq<Byte>, p: nat, a: Address, parse: ParseIP)
    requires Complete(data, p)
  {
    var end := EndOf(data, p);
    && a.port == Number(data[end - 2], data[end - 1])
    && (data[p] != 3 ==> a.kind == data[p] && a.domain == [] && a.ip == data[p + 1..end - 2])
    && (data[p] == 3 ==>
          var name := data[p + 2..end - 2];
          && a.ip == parse(name)
          && (if parse(name) == [] then a.kind == 3 && a.domain == name
              else a.domain == [] && a.kind == if To4(parse(name)) != [] then 1 else 4))
  }

  /** Only one address can stand there. */
  lemma StandsOnce(data: seq<Byte>, p: nat, a: Address, b: Address, parse: ParseIP)
    requires Complete(data, p) && Stands(data, p, a, parse) && Stands(data, p, b, parse)
    ensures a == b
  {
  }

  /** The reader accepts exactly the complete addresses, reads what stands there and stops behind it. */
  lemma ReadsExactly(data: seq<Byte>, p: nat, parse: ParseIP)
    ensures var r := Unmarshal(data, p, parse);
      && (r.Parsed? <==> Complete(data, p))
      && (r.Parsed? ==> r.next == EndOf(data, p) && Stands(data, p, r.value, parse))
  {
    if Complete(data, p) {
      var end := EndOf(data, p);
      if data[p] == 3 {
        NameReads(data, p, parse);
      } else {
        var buf := data[p + 1..end];
        assert buf[..|buf| - 2] == data[p + 1..end - 2];
      }
    }
  }

  lemma NameReads(data: seq<Byte>, p: nat, parse: ParseIP)
    requires Complete(data, p) && data[p] == 3
    ensures var r, end := Unmarshal(data, p, parse), EndOf(data, p);
      r == Parsed(FromHost(data[p + 2..end - 2], Number(data[end - 2], data[end - 1]), parse), end)
  {
    var end, length := EndOf(data, p), data[p + 1];
    var buf := data[p + 2..end];
    assert (length + 2) % 256 == length + 2 == |buf|;
    assert buf[..length] == data[p + 2..end - 2];
  }

  // ---------- what comes out at the other end ----------

  /** Addresses that their own type describes: the IP has the form the type asks for. */
  ghost predicate Sound(a: Address) {
    || (a.kind == IPV4 && To4(a.ip) != [])
    || (a.kind == IPV6 && To16(a.ip) != [])
    || a.kind == DOMAIN_NAME
  }

  /** The address the reader sees. */
  function Received(a: Address, parse: ParseIP): Address {
    if a.kind == IPV4 then Address(IPV4, [], To4(a.ip), a.port % 65536)
    else if a.kind == IPV6 then Address(IPV6, [], To16(a.ip), a.port % 65536)
    else FromHost(a.domain, a.port % 65536, parse)
  }

  lemma Slices(a: seq<Byte>, b: seq<Byte>, c: seq<Byte>, rest: seq<Byte>, before: seq<Byte>)
    ensures var data := before + (a + b + c) + rest;
      && data[|before|..|before| + |a|] == a
      && data[|before| + |a|..|before| + |a| + |b| + |c|] == b + c
      && (b + c)[..|b|] == b && (b + c)[|b|..] == c
  {
    var data := before + (a + b + c) + rest;
    assert data == before + a + (b + c) + rest;
  }

  lemma IPReceived(a: Address, before: seq<Byte>, rest: seq<Byte>, parse: ParseIP)
    requires Sound(a) && a.kind != DOMAIN_NAME
    ensures var m := Marshal(a).bytes;
      Unmarshal(before + m + rest, |before|, parse) == Parsed(Received(a, parse), |before| + |m|)
  {
    var ip := if a.kind == IPV4 then To4(a.ip) else To16(a.ip);
    Slices([a.kind], ip, PutUint16(a.port), rest, before);
    Uint16Back(a.port);
  }

  lemma HostReceived(host: seq<Byte>, port: int, before: seq<Byte>, rest: seq<Byte>, parse: ParseIP)
    requires |host| <= 253
    ensures UnmarshalDomain(before + ([|host|] + host + PutUint16(port)) + rest, |before|, parse)
         == Parsed(FromHost(host, port % 65536, parse), |before| + |host| + 3)
  {
    Slices([|host|], host, PutUint16(port), rest, before);
    Uint16Back(port);
  }

  lemma DomainReceived(a: Address, before: seq<Byte>, rest: seq<Byte>, parse: ParseIP)
    requires a.kind == DOMAIN_NAME && |a.domain| <= 253
    ensures var m := Marshal(a).bytes;
      Unmarshal(before + m + rest, |before|, parse) == Parsed(Received(a, parse), |before| + |m|)
  {
    var data := before + Marshal(a).bytes + rest;
    var port := PutUint16(a.port);
    assert data == (before + [a.kind]) + ([|a.domain|] + a.domain + port) + rest;
    assert data[|before|..|before| + 1] == [a.kind];
    assert Take(data, |before|, 1) == Parsed([a.kind], |before + [a.kind]|);
    HostReceived(a.domain, a.port, before + [a.kind], rest, parse);
  }

  /** Every sound address with a name of at most 253 bytes arrives, whatever precedes and follows it. */
  lemma Arrives(a: Address, before: seq<Byte>, rest: seq<Byte>, parse: ParseIP)
    requires Sound(a) && (a.kind == DOMAIN_NAME ==> |a.domain| <= 253)
    ensures var m := Marshal(a);
      m.ok && Unmarshal(before + m.bytes + rest, |before|, parse) == Parsed(Received(a, parse), |before| + |m.bytes|)
  {
    if a.kind == DOMAIN_NAME {
      DomainReceived(a, before, rest, parse);
    } else {
      IPReceived(a, before, rest, parse);
    }
  }

  /**
    The same address to a user: type and port agree, and so does what the type says to look
    at, the name or the IP in either of its forms.
  */
  ghost predicate Same(a: Address, b: Address) {
    && a.kind == b.kind && a.port == b.port
    && (a.kind == IPV4 ==> To4(a.ip) == To4(b.ip))
    && (a.kind == IPV6 ==> To16(a.ip) == To16(b.ip))
    && (a.kind == DOMAIN_NAME ==> a.domain == b.domain)
  }

  /** What a caller can check before writing an address. */
  ghost predicate Representable(a: Address, parse: ParseIP) {
    && Sound(a) && 0 <= a.port < 65536
    && (a.kind == DOMAIN_NAME ==> |a.domain| <= 253 && parse(a.domain) == [])
  }

  /** The address comes back, and the reader stops right behind it. */
  ghost predicate ComesBack(a: Address, before: seq<Byte>, rest: seq<Byte>, parse: ParseIP) {
    var m := Marshal(a).bytes;
    var r := Unmarshal(before + m + rest, |before|, parse);
    r.Parsed? && r.next == |before| + |m| && Same(a, r.value)
  }

  /** A name of 254 bytes or more never arrives as it was sent. */
  lemma LongNameLost(a: Address, before: seq<Byte>, rest: seq<Byte>, parse: ParseIP)
    requires a.kind == DOMAIN_NAME && |a.domain| > 253
    ensures !ComesBack(a, before, rest, parse)
  {
    var data := before + Marshal(a).bytes + rest;
    assert data == (before + [a.kind] + [|a.domain| % 256]) + (a.domain + PutUint16(a.port)) + rest;
    assert data[|before|..|before| + 1] == [a.kind];
    assert data[|before| + 1..|before| + 2] == [|a.domain| % 256];
    assert |a.domain| % 256 < |a.domain| || |a.domain| % 256 >= 254;
  }

  /** An address without an IP of its type, or of no type, never does either. */
  lemma UnsoundLost(a: Address, before: seq<Byte>, rest: seq<Byte>, parse: ParseIP)
    requires !Sound(a)
    ensures !ComesBack(a, before, rest, parse)
  {
    var data := before + Marshal(a).bytes + rest;
    assert data[|before|..|before| + 1] == [a.kind];
  }

  /**
    The round trip of any address, wherever it stands in a stream, gives the address back and
    stops right behind it, exactly if its IP has a form of its type, its port has 16 bits, and
    its name has at most 253 bytes and is not an IP literal.
  */
  lemma RoundTripExactly(a: Address, before: seq<Byte>, rest: seq<Byte>, parse: ParseIP)
    ensures ComesBack(a, before, rest, parse) <==> Representable(a, parse)
  {
    if a.kind == DOMAIN_NAME && |a.domain| > 253 {
      LongNameLost(a, before, rest, parse);
    } else if !Sound(a) {
      UnsoundLost(a, before, rest, parse);
    } else {
      Arrives(a, before, rest, parse);
      ReceivedExactly(a, parse);
    }
  }

  lemma ReceivedExactly(a: Address, parse: ParseIP)
    requires Sound(a) && (a.kind == DOMAIN_NAME ==> |a.domain| <= 253)
    ensures Same(a, Received(a, parse)) <==> Representable(a, parse)
  {
  }

  /** A name that is an IP literal is forwarded as that address in binary, in four bytes if it is a mapped one. */
  lemma LiteralForwarded(host: seq<Byte>, port: int, before: seq<Byte>, rest: seq<Byte>, parse: ParseIP)
    requires |host| <= 253 && |parse(host)| == 16
    ensures var m := Marshal(Address(DOMAIN_NAME, host, [], port)).bytes;
      var r := Unmarshal(before + m + rest, |before|, parse);
      r.Parsed? && Marshal(r.value).bytes ==
        if parse(host)[..12] == V4_IN_V6 then [IPV4] + parse(host)[12..] + PutUint16(port)
        else [IPV6] + parse(host) + PutUint16(port)
  {
    Arrives(Address(DOMAIN_NAME, host, [], port), before, rest, parse);
    SamePort(port);
  }

  lemma SamePort(port: int)
    ensures PutUint16(port % 65536) == PutUint16(port)
  {
    Uint16Back(port);
    PutBack(PutUint16(port));
  }

  /** The reader panics exactly on names announced as 254 bytes, or as 255 with a byte behind them. */
  lemma PanicsExactly(data: seq<Byte>, p: nat, parse: ParseIP)
    ensures Unmarshal(data, p, parse).Panicked? <==>
      p + 2 <= |data| && data[p] == DOMAIN_NAME && (data[p + 1] == 254 || (data[p + 1] == 255 && p + 3 <= |data|))
  {
  }

  /** Where the reader has stopped lies behind at least two bytes and inside the stream. */
  lemma Advances(data: seq<Byte>, p: nat, parse: ParseIP)
    requires Unmarshal(data, p, parse).Parsed?
    ensures p + 2 < Unmarshal(data, p, parse).next <= |data|
  {
  }

  /** Reading looks at nothing behind the address. */
  lemma Local(data: seq<Byte>, more: seq<Byte>, p: nat, parse: ParseIP)
    requires Unmarshal(data, p, parse).Parsed?
    ensures Unmarshal(data + more, p, parse) == Unmarshal(data, p, parse)
  {
    var next := Unmarshal(data, p, parse).next;
    var both := data + more;
    assert both[p..p + 1] == data[p..p + 1];
    if data[p] == DOMAIN_NAME {
      assert both[p + 1..p + 2] == data[p + 1..p + 2];
      assert both[p + 2..next] == data[p + 2..next];
    } else {
      assert both[p + 1..next] == data[p + 1..next];
    }
  }

  lemma IPRewritten(data: seq<Byte>, p: nat, parse: ParseIP)
    requires Unmarshal(data, p, parse).Parsed? && data[p] != DOMAIN_NAME
    ensures Marshal(Unmarshal(data, p, parse).value).bytes == data[p..Unmarshal(data, p, parse).next]
  {
    var r := Unmarshal(data, p, parse);
    var buf := data[p + 1..r.next];
    PutBack(buf[|buf| - 2..]);
    assert data[p..r.next] == [data[p]] + buf[..|buf| - 2] + buf[|buf| - 2..];
  }

  /** The opposite direction: what was read is written back byte for byte, unless a name was an IP literal. */
  lemma Rewritten(data: seq<Byte>, p: nat, parse: ParseIP)
    requires Unmarshal(data, p, parse).Parsed?
    requires Unmarshal(data, p, parse).value.kind == data[p]
    ensures Marshal(Unmarshal(data, p, parse).value).bytes == data[p..Unmarshal(data, p, parse).next]
  {
    if data[p] != DOMAIN_NAME {
      IPRewritten(data, p, parse);
    } else {
      var r := Unmarshal(data, p, parse);
      var length := data[p + 1];
      var buf := data[p + 2..r.next];
      assert length <= 253;
      PutBack(buf[length..]);
      assert data[p..r.next] == [data[p]] + [length] + buf[..length] + buf[length..];
    }
  }

  // ---------- metadata ----------

  datatype Metadata = Metadata(command: Byte, address: Address)

  /** Nothing is written when the address cannot be. */
  function MarshalMetadata(m: Metadata): seq<Byte> {
    if Marshal(m.address).ok then [m.command] + Marshal(m.address).bytes else []
  }

  function UnmarshalMetadata(data: seq<Byte>, p: nat, parse: ParseIP): Parse<Metadata> {
    match Take(data, p, 1)
    case Parsed(c, next) => (
      match Unmarshal(data, next, parse)
      case Parsed(a, end) => Parsed(Metadata(c[0], a), end)
      case Failed => Failed
      case Panicked => Panicked
    )
    case _ => Failed
  }

  lemma MetadataArrives(m: Metadata, before: seq<Byte>, rest: seq<Byte>, parse: ParseIP)
    requires Sound(m.address) && (m.address.kind == DOMAIN_NAME ==> |m.address.domain| <= 253)
    ensures var bytes := MarshalMetadata(m);
      UnmarshalMetadata(before + bytes + rest, |before|, parse)
        == Parsed(Metadata(m.command, Received(m.address, parse)), |before| + |bytes|)
  {
    var data := before + MarshalMetadata(m) + rest;
    assert data == (before + [m.command]) + Marshal(m.address).bytes + rest;
    assert data[|before|..|before| + 1] == [m.command];
    Arrives(m.address, before + [m.command], rest, parse);
  }

  /** Command and address come back exactly for representable addresses. */
  lemma MetadataExactly(m: Metadata, before: seq<Byte>, rest: seq<Byte>, parse: ParseIP)
    ensures var bytes := MarshalMetadata(m);
      var r := UnmarshalMetadata(before + bytes + rest, |before|, parse);
      (r.Parsed? && r.next == |before| + |bytes| && r.value.command == m.command
          && Same(m.address, r.value.address)) <==>
      Representable(m.address, parse)
  {
    var data := before + MarshalMetadata(m) + rest;
    if !Marshal(m.address).ok {
      NothingComesBack(data, |before|, m, parse);
      return;
    }
    assert data == (before + [m.command]) + Marshal(m.address).bytes + rest;
    assert data[|before|..|before| + 1] == [m.command];
    RoundTripExactly(m.address, before + [m.command], rest, parse);
  }

  lemma NothingComesBack(data: seq<Byte>, p: nat, m: Metadata, parse: ParseIP)
    requires !Marshal(m.address).ok
    ensures var r := UnmarshalMetadata(data, p, parse); !(r.Parsed? && Same(m.address, r.value.address))
  {
  }
}
