/** Bytes, 16-bit numbers in network order, and reading from a byte stream. */
module Bytes {
  import opened Seqs

  type Byte = b: int | 0 <= b < 256

  const CRLF: seq<Byte> := [13, 10]

  /** uint16 of an int, high byte first. */
  function PutUint16(n: int): (r: seq<Byte>)
    ensures |r| == 2
  {
    [n / 256 % 256, n % 256]
  }

  function Uint16(b: seq<Byte>): int
    requires |b| == 2
  {
    var high: int, low: int := b[0], b[1];
    high * 256 + low
  }

  lemma Uint16Back(n: int)
    ensures Uint16(PutUint16(n)) == n % 65536
  {
    Digits16(n, n / 256, n % 256);
  }

  lemma Digits16(n: int, q: int, low: int)
    requires n == 256 * q + low && 0 <= low < 256
    ensures n % 65536 == q % 256 * 256 + low
  {
    var p, high := q / 256, q % 256;
    assert n == 65536 * p + (high * 256 + low);
  }

  function Number(high: int, low: int): int {
    256 * high + low
  }

  /** The high byte comes first. */
  lemma NetworkOrder(n: int)
    ensures Number(PutUint16(n)[0], PutUint16(n)[1]) == n % 65536
  {
    Digits16(n, n / 256, n % 256);
  }

  lemma PutBack(b: seq<Byte>)
    requires |b| == 2
    ensures PutUint16(Uint16(b)) == b
  {
  }

  /** What a parser makes of a stream: a value and where it stopped, an error, or a panic. */
  datatype Parse<T> = Parsed(value: T, next: nat) | Failed | Panicked

  /** io.ReadFull of `n` bytes. */
  function Take(data: seq<Byte>, p: nat, n: nat): Parse<seq<Byte>> {
    if p + n <= |data| then Parsed(data[p..p + n], p + n) else Failed
  }

  /** The concatenation of a list of byte strings. */
  function Flatten(parts: seq<seq<Byte>>): seq<Byte> {
    if parts == [] then [] else Flatten(parts[..|parts| - 1]) + parts[|parts| - 1]
  }

  lemma FlattenSnoc(parts: seq<seq<Byte>>, part: seq<Byte>)
    ensures Flatten(parts + [part]) == Flatten(parts) + part
  {
    assert (parts + [part])[..|parts|] == parts;
  }

  lemma {:induction false} FlattenConcat(a: seq<seq<Byte>>, b: seq<seq<Byte>>)
    ensures Flatten(a + b) == Flatten(a) + Flatten(b)
    decreases |b|
  {
    if b == [] {
      assert a + b == a;
    } else {
      assert (a + b)[..|a + b| - 1] == a + b[..|b| - 1];
      FlattenConcat(a, b[..|b| - 1]);
      Assoc(Flatten(a), Flatten(b[..|b| - 1]), b[|b| - 1]);
    }
  }

  lemma FlattenHead(parts: seq<seq<Byte>>)
    requires parts != []
    ensures Flatten(parts) == parts[0] + Flatten(parts[1..])
  {
    assert parts == [parts[0]] + parts[1..];
    FlattenConcat([parts[0]], parts[1..]);
    FlattenSnoc([], parts[0]);
    assert [] + [parts[0]] == [parts[0]] && [] + parts[0] == parts[0];
  }
}
