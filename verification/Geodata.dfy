/**
  The streaming scanner over geoip and geosite files (common/geodata/decode.go).

  A file is a list of records `0A len body`.  The scanner takes each body to start with
  `0A len code`, reads the length and the code of the record and seeks over the rest of it.
  The fallback path decodes the whole file; there a body is a list of protobuf fields in any
  order, and of several code fields the last one counts.
*/
module Geodata {
  import opened Bytes
  import opened Numbers
  import opened Seqs

  const TAG: Byte := 10

  datatype Outcome =
    | Found(bytes: seq<Byte>)
    | CodeNotFound          // end of file where the next read begins
    | ShortRead             // fewer bytes than asked for
    | InvalidFile           // a tag other than 0A
    | InvalidVarint
    | Panic                 // a length that no slice can have

  /** uint64 to int64. */
  function Int64(n: int): int {
    if n < TWO63 then n else n - TWO64
  }

  // ---------- varints ----------

  /** The value of base-128 digits, least significant first, continuation bits dropped. */
  function Digits(bytes: seq<Byte>): nat {
    if bytes == [] then 0 else bytes[0] % 128 + 128 * Digits(bytes[1..])
  }

  function Power(k: nat): nat {
    if k == 0 then 1 else 128 * Power(k - 1)
  }

  lemma PowerNine()
    ensures Power(9) == TWO63
  {
    assert Power(3) == 2097152;
    assert Power(6) == 4398046511104;
  }

  /** protowire.ConsumeVarint on bytes whose last one is the first below 128. */
  predicate VarintFits(bytes: seq<Byte>) {
    1 <= |bytes| <= 10 && (|bytes| == 10 ==> bytes[9] < 2)
  }

  /** A complete varint: all bytes but the last carry the continuation bit. */
  ghost predicate Complete(bytes: seq<Byte>) {
    && |bytes| > 0 && bytes[|bytes| - 1] < 128
    && forall i | 0 <= i < |bytes| - 1 :: bytes[i] >= 128
  }

  datatype Length = Length(value: nat, next: nat) | NoLength(error: Outcome)

  /** Reads a varint byte by byte from `p`; `read` holds the bytes taken so far. */
  function ReadLength(data: seq<Byte>, p: nat, read: seq<Byte>): Length
    decreases |data| - p
  {
    if p >= |data| then NoLength(CodeNotFound)
    else if data[p] > 127 then ReadLength(data, p + 1, read + [data[p]])
    else if VarintFits(read + [data[p]]) then Length(Digits(read + [data[p]]), p + 1)
    else NoLength(InvalidVarint)
  }

  /** Where a complete varint stands in the file, reading consumes exactly it. */
  lemma {:induction false} ReadsComplete(data: seq<Byte>, p: nat, read: seq<Byte>, v: seq<Byte>)
    requires Complete(v) && p + |v| <= |data| && data[p..p + |v|] == v
    ensures ReadLength(data, p, read)
         == if VarintFits(read + v) then Length(Digits(read + v), p + |v|) else NoLength(InvalidVarint)
    decreases |v|
  {
    assert data[p] == v[0];
    if |v| > 1 {
      assert data[p + 1..p + |v|] == v[1..];
      assert read + v == (read + [v[0]]) + v[1..];
      ReadsComplete(data, p + 1, read + [v[0]], v[1..]);
    } else {
      assert v == [v[0]];
    }
  }

  lemma ReadsFitting(data: seq<Byte>, p: nat, v: seq<Byte>)
    requires VarintFits(v) && Complete(v) && p + |v| <= |data| && data[p..p + |v|] == v
    ensures ReadLength(data, p, []) == Length(Digits(v), p + |v|)
  {
    ReadsComplete(data, p, [], v);
    assert [] + v == v;
  }

  lemma SmallByte(data: seq<Byte>, p: nat)
    requires p < |data| && data[p] < 128
    ensures ReadLength(data, p, []) == Length(data[p], p + 1)
  {
    var v := [data[p]];
    assert v[1..] == [] && Digits(v) == data[p] % 128;
    ReadsFitting(data, p, v);
  }

  lemma {:induction false} LengthAdvances(data: seq<Byte>, p: nat, read: seq<Byte>)
    ensures match ReadLength(data, p, read)
      case Length(_, next) => p < next <= |data|
      case NoLength(e) => e == CodeNotFound || e == InvalidVarint
    decreases |data| - p
  {
    if p < |data| && data[p] > 127 {
      LengthAdvances(data, p + 1, read + [data[p]]);
    }
  }

  lemma {:induction false} DigitsBound(v: seq<Byte>)
    ensures Digits(v) < Power(|v|)
  {
    if v != [] {
      DigitsBound(v[1..]);
    }
  }

  lemma {:induction false} LastDigit(v: seq<Byte>)
    requires v != []
    ensures var n := |v| - 1; Digits(v) == Digits(v[..n]) + Power(n) * (v[n] % 128)
    decreases |v|
  {
    var n := |v| - 1;
    if n == 0 {
      assert v[1..] == [] && v[..0] == [];
    } else {
      LastDigit(v[1..]);
      assert v[..n][1..] == v[1..][..n - 1] && v[1..][n - 1] == v[n];
      Shifted(v[0] % 128, Digits(v[1..][..n - 1]), Power(n - 1), v[n] % 128);
    }
  }

  lemma Shifted(low: nat, rest: nat, power: nat, last: nat)
    ensures low + 128 * (rest + power * last) == low + 128 * rest + 128 * power * last
  {
  }

  lemma {:induction false} Longer(m: nat, n: nat)
    requires m <= n
    ensures Power(m) <= Power(n)
    decreases n
  {
    if m < n {
      Longer(m, n - 1);
    }
  }

  /** A length is rejected exactly if it has more than ten bytes or does not fit into 64 bits. */
  lemma FitsExactly(v: seq<Byte>)
    requires Complete(v)
    ensures VarintFits(v) <==> |v| <= 10 && Digits(v) < TWO64
  {
    PowerNine();
    if |v| < 10 {
      DigitsBound(v);
      Longer(|v|, 9);
    } else if |v| == 10 {
      LastDigit(v);
      DigitsBound(v[..9]);
      assert Power(9) * (v[9] % 128) == TWO63 * v[9];
    }
  }

  // ---------- one record ----------

  /** What the scanner does with the record at a position: it stops, or goes on elsewhere. */
  datatype Step = Stop(outcome: Outcome) | GoOn(next: nat)

  type Match = (seq<Byte>, seq<Byte>) -> bool

  /** Reads `n` bytes at `p` the way the loop does. */
  function ReadAt(data: seq<Byte>, p: nat, n: nat): Outcome {
    if n >= TWO63 then Panic
    else if n == 0 then Found([])
    else if p >= |data| then CodeNotFound
    else if p + n > |data| then ShortRead
    else Found(data[p..p + n])
  }

  /** Reads one byte that must be the record tag. */
  function ReadTag(data: seq<Byte>, p: nat): Outcome {
    if p >= |data| then CodeNotFound
    else if data[p] != TAG then InvalidFile
    else Found([])
  }

  /** A seek to a negative position or past 2^63 - 1 fails, unnoticed, and leaves the cursor where it is. */
  function SeekTo(target: int, here: nat): nat {
    if 0 <= target < TWO63 then target else here
  }

  /** The code of the record has been read: emit the body or skip it. */
  function AfterCode(data: seq<Byte>, body: nat, length: nat, here: nat, found: seq<Byte>, code: seq<Byte>,
                     eq: Match): Step {
    if eq(found, code) then Stop(ReadAt(data, body, length))
    else GoOn(SeekTo(body + Int64(length), here))
  }

  /** The code has `n` bytes and starts at `p`. */
  function AtCode(data: seq<Byte>, body: nat, length: nat, p: nat, n: nat, code: seq<Byte>, eq: Match): Step {
    match ReadAt(data, p, n)
    case Found(found) => AfterCode(data, body, length, p + n, found, code, eq)
    case e => Stop(e)
  }

  function AfterInnerLength(data: seq<Byte>, body: nat, length: nat, inner: Length, code: seq<Byte>, eq: Match): Step {
    match inner
    case NoLength(e) => Stop(e)
    case Length(n, p) => AtCode(data, body, length, p, n, code, eq)
  }

  /** The body starts at `body` and its stated length is `length`. */
  function AtBody(data: seq<Byte>, body: nat, length: nat, code: seq<Byte>, eq: Match): Step {
    match ReadTag(data, body)
    case Found(_) => AfterInnerLength(data, body, length, ReadLength(data, body + 1, []), code, eq)
    case e => Stop(e)
  }

  function AfterLength(data: seq<Byte>, outer: Length, code: seq<Byte>, eq: Match): Step {
    match outer
    case NoLength(e) => Stop(e)
    case Length(n, body) => AtBody(data, body, n, code, eq)
  }

  function Record(data: seq<Byte>, p: nat, code: seq<Byte>, eq: Match): Step {
    match ReadTag(data, p)
    case Found(_) => AfterLength(data, ReadLength(data, p + 1, []), code, eq)
    case e => Stop(e)
  }

  // How far the record at `p` can be read: its tag and length, the tag of its code, the length of its code.

  predicate Headed(data: seq<Byte>, p: nat) {
    p < |data| && data[p] == 10 && ReadLength(data, p + 1, []).Length?
  }

  predicate Tagged(data: seq<Byte>, p: nat) {
    && Headed(data, p)
    && var body := ReadLength(data, p + 1, []).next; body < |data| && data[body] == 10
  }

  predicate Coded(data: seq<Byte>, p: nat) {
    Tagged(data, p) && ReadLength(data, ReadLength(data, p + 1, []).next + 1, []).Length?
  }

  /** `bytes` are the `n` bytes at `p`; none are always there, and no slice has 2^63. */
  predicate AreThere(data: seq<Byte>, p: nat, n: nat, bytes: seq<Byte>) {
    if n == 0 then bytes == [] else n < TWO63 && p + n <= |data| && bytes == data[p..p + n]
  }

  /** Where the reading of `n` bytes at `p` breaks off: inside the bytes, or before the first of them. */
  predicate Torn(data: seq<Byte>, p: nat, n: nat) {
    0 < n < TWO63 && p < |data| < p + n
  }

  predicate AtEnd(data: seq<Byte>, p: nat, n: nat) {
    0 < n < TWO63 && p >= |data|
  }

  /** A record that stops the scan does so for what stands there, the errors that make the caches fall back included. */
  lemma StopsFor(data: seq<Byte>, p: nat, code: seq<Byte>, eq: Match)
    requires Coded(data, p)
    ensures var step, outer := Record(data, p, code, eq), ReadLength(data, p + 1, []);
      var n, body := outer.value, outer.next;
      var m, q := ReadLength(data, body + 1, []).value, ReadLength(data, body + 1, []).next;
      && (step == Stop(ShortRead) <==>
            Torn(data, q, m)
            || (exists c :: AreThere(data, q, m, c) && eq(c, code) && Torn(data, body, n)))
      && (step == Stop(CodeNotFound) <==> AtEnd(data, q, m))
      && (step == Stop(Panic) <==>
            m >= TWO63 || (n >= TWO63 && exists c :: AreThere(data, q, m, c) && eq(c, code)))
      && (step.Stop? && step.outcome.Found? <==>
            n < TWO63 && (n == 0 || body + n <= |data|) && exists c :: AreThere(data, q, m, c) && eq(c, code))
      && (step.Stop? && step.outcome.Found? ==> AreThere(data, body, n, step.outcome.bytes))
      && step != Stop(InvalidFile) && step != Stop(InvalidVarint)
  {
    var outer := ReadLength(data, p + 1, []);
    var m, q := ReadLength(data, outer.next + 1, []).value, ReadLength(data, outer.next + 1, []).next;
    LengthAdvances(data, outer.next + 1, []);
    if ReadAt(data, q, m).Found? {
      assert AreThere(data, q, m, ReadAt(data, q, m).bytes);
    }
  }

  lemma StopsBefore(data: seq<Byte>, p: nat, code: seq<Byte>, eq: Match)
    requires !Coded(data, p)
    ensures var step := Record(data, p, code, eq);
      && (step == Stop(InvalidFile) <==>
            (p < |data| && data[p] != 10)
            || (Headed(data, p) && ReadLength(data, p + 1, []).next < |data| && !Tagged(data, p)))
      && (step == Stop(InvalidVarint) <==>
            (p < |data| && data[p] == 10 && ReadLength(data, p + 1, []) == NoLength(InvalidVarint))
            || (Tagged(data, p)
                && ReadLength(data, ReadLength(data, p + 1, []).next + 1, []) == NoLength(InvalidVarint)))
      && (step == Stop(InvalidFile) || step == Stop(InvalidVarint) || step == Stop(CodeNotFound))
  {
    LengthAdvances(data, p + 1, []);
    if Headed(data, p) {
      LengthAdvances(data, ReadLength(data, p + 1, []).next + 1, []);
    }
  }

  lemma {:induction false} UnendingExactly(data: seq<Byte>, p: nat, read: seq<Byte>)
    ensures ReadLength(data, p, read) == NoLength(CodeNotFound) <==> forall i | p <= i < |data| :: data[i] > 127
    decreases |data| - p
  {
    if p < |data| && data[p] > 127 {
      UnendingExactly(data, p + 1, read + [data[p]]);
    }
  }

  /** The scan from `p`, if it stops within `fuel` records. */
  datatype Scan = Stops(outcome: Outcome) | Running

  function ScanFrom(data: seq<Byte>, p: nat, code: seq<Byte>, eq: Match, fuel: nat): Scan
    decreases fuel
  {
    if fuel == 0 then Running
    else
      match Record(data, p, code, eq)
      case Stop(o) => Stops(o)
      case GoOn(q) => ScanFrom(data, q, code, eq, fuel - 1)
  }

  // ---------- the six-state loop ----------

  /** The variables of the loop and the position of the file. */
  datatype Cursor = Cursor(
    pos: nat,
    count: int,
    isInner: bool,
    tempContainer: seq<Byte>,
    advancedN: nat,
    geoDataVarintLength: nat,
    codeVarintLength: nat,
    varintLenByteLen: nat)

  /**
    What is still to be done from this cursor is what the record at `start` calls for;
    `body` is where its body begins, once that is known.
  */
  ghost predicate Pending(data: seq<Byte>, code: seq<Byte>, eq: Match, start: nat, body: nat, c: Cursor) {
    && (c.isInner <==> c.count == 3 || c.count == 4)
    && match c.count
       case 1 => c.advancedN == 1 && c.tempContainer == [] && c.pos == start
       case 2 =>
         && c.advancedN == 1
         && Record(data, start, code, eq) == AfterLength(data, ReadLength(data, c.pos, c.tempContainer), code, eq)
       case 3 =>
         && c.advancedN == 1 && c.tempContainer == []
         && Record(data, start, code, eq) == AtBody(data, c.pos, c.geoDataVarintLength, code, eq)
       case 4 =>
         && c.advancedN == 1 && c.pos == body + 1 + |c.tempContainer|
         && Record(data, start, code, eq)
              == AfterInnerLength(data, body, c.geoDataVarintLength, ReadLength(data, c.pos, c.tempContainer), code, eq)
       case 5 =>
         && c.tempContainer == [] && c.advancedN == c.codeVarintLength
         && c.pos == body + 1 + c.varintLenByteLen
         && Record(data, start, code, eq)
              == AtCode(data, body, c.geoDataVarintLength, c.pos, c.codeVarintLength, code, eq)
       case 6 => Record(data, start, code, eq) == Stop(ReadAt(data, c.pos, c.advancedN))
       case _ => false
  }

  /** A read that fails ends the record, and so does the read of state 6. */
  lemma ReadEnds(data: seq<Byte>, code: seq<Byte>, eq: Match, start: nat, body: nat, c: Cursor)
    requires Pending(data, code, eq, start, body, c)
    requires !ReadAt(data, c.pos, c.advancedN).Found? || c.count == 6
    ensures Record(data, start, code, eq) == Stop(ReadAt(data, c.pos, c.advancedN))
  {
  }

  /** States 1 and 3: the byte read must be a tag. */
  method TagRound(data: seq<Byte>, code: seq<Byte>, eq: Match, ghost start: nat, ghost body: nat, c: Cursor)
    returns (ok: bool, next: Cursor)
    requires Pending(data, code, eq, start, body, c) && (c.count == 1 || c.count == 3) && c.pos < |data|
    ensures ok ==> Pending(data, code, eq, start, c.pos, next) && next.count == c.count + 1
    ensures !ok ==> Record(data, start, code, eq) == Stop(InvalidFile)
  {
    next := c;
    if data[c.pos] != TAG {
      return false, next;
    }
    next := c.(pos := c.pos + 1, advancedN := 1, count := c.count + 1);
    ok := true;
  }

  /** States 2 and 4: one more byte of a length; the length is complete when the byte is small. */
  method LengthRound(data: seq<Byte>, code: seq<Byte>, eq: Match, ghost start: nat, ghost body: nat, c: Cursor)
    returns (ok: bool, next: Cursor)
    requires Pending(data, code, eq, start, body, c) && (c.count == 2 || c.count == 4) && c.pos < |data|
    ensures ok ==> Pending(data, code, eq, start, body, next) && next.pos == c.pos + 1
    ensures ok ==> next.count == c.count || next.count == c.count + 1
    ensures !ok ==> Record(data, start, code, eq) == Stop(InvalidVarint)
  {
    var tempContainer := c.tempContainer + [data[c.pos]];
    next := c.(pos := c.pos + 1, tempContainer := tempContainer);
    if data[c.pos] > 127 {
      return true, next;
    }
    if !VarintFits(tempContainer) {
      return false, next;
    }
    var lenVarint, n := Digits(tempContainer), |tempContainer|;
    if !c.isInner {
      next := next.(tempContainer := [], isInner := true, geoDataVarintLength := lenVarint, advancedN := 1, count := 3);
    } else {
      next := next.(tempContainer := [], isInner := false, codeVarintLength := lenVarint, varintLenByteLen := n,
                    advancedN := lenVarint, count := 5);
    }
    ok := true;
  }

  /** State 5: the code; seek back to the body, or over it to the next record. */
  method CodeRound(data: seq<Byte>, code: seq<Byte>, eq: Match, ghost start: nat, ghost body: nat, c: Cursor,
                   container: seq<Byte>)
    returns (next: Cursor)
    requires Pending(data, code, eq, start, body, c) && c.count == 5
    requires ReadAt(data, c.pos, c.advancedN) == Found(container)
    ensures next.count == 6 ==> Pending(data, code, eq, start, body, next)
    ensures next.count != 6 ==>
      && next.count == 1 && Record(data, start, code, eq) == GoOn(next.pos)
      && Pending(data, code, eq, next.pos, body, next)
  {
    var pos := c.pos + c.advancedN;
    if eq(container, code) {
      next := c.(count := 6, pos := pos - (1 + c.varintLenByteLen + c.codeVarintLength),
                 advancedN := c.geoDataVarintLength);
    } else {
      var offset := Int64(c.geoDataVarintLength) - c.codeVarintLength - c.varintLenByteLen - 1;
      next := c.(count := 1, pos := SeekTo(pos + offset, pos), advancedN := 1);
    }
  }

  /**
    EmitBytes on a file that the scan gets through; `fuel` bounds the number of records it
    looks at.  Every round reads `advancedN` bytes and acts on them according to `count`.
  */
  method EmitBytes(data: seq<Byte>, code: seq<Byte>, eq: Match, ghost fuel: nat) returns (r: Outcome)
    requires ScanFrom(data, 0, code, eq, fuel).Stops?
    ensures Stops(r) == ScanFrom(data, 0, code, eq, fuel)
  {
    var c := Cursor(0, 1, false, [], 1, 0, 0, 0);
    ghost var start: nat, body: nat, left := 0, 0, fuel;
    while true
      invariant left > 0 && ScanFrom(data, start, code, eq, left) == ScanFrom(data, 0, code, eq, fuel)
      invariant Pending(data, code, eq, start, body, c)
      decreases left, 6 - c.count, |data| - c.pos
    {
      var read := ReadAt(data, c.pos, c.advancedN);
      if !read.Found? || c.count == 6 {
        ReadEnds(data, code, eq, start, body, c);
        return read;
      }
      var ok;
      match c.count
      case 1 | 3 =>
        ghost var at := c.pos;
        ok, c := TagRound(data, code, eq, start, body, c);
        body := at;
        if !ok {
          return InvalidFile;
        }
      case 2 | 4 =>
        ok, c := LengthRound(data, code, eq, start, body, c);
        if !ok {
          return InvalidVarint;
        }
      case _ =>
        c := CodeRound(data, code, eq, start, body, c, read.bytes);
        if c.count == 1 {
          start, left := c.pos, left - 1;
        }
    }
  }

  // ---------- the simple search it must agree with ----------

  /** A decoded record: its code and the bytes of its body. */
  datatype Message = Message(code: seq<Byte>, body: seq<Byte>)

  datatype Decoded<T> = Decoded(value: T) | Malformed

  const MAX_FIELD: nat := 0x2000_0000

  const VARINT: nat := 0
  const FIXED64: nat := 1
  const BYTES: nat := 2
  const START_GROUP: nat := 3
  const END_GROUP: nat := 4
  const FIXED32: nat := 5

  /** One field of a message: its number, its wire type, where its value lies and where it ends. */
  datatype Field = Field(number: nat, wire: nat, value: nat, next: nat) | NoField

  /** The field at `p`; for a group only its opening or closing tag. */
  function ReadField(body: seq<Byte>, p: nat): (r: Field)
    ensures r.Field? ==> p < r.value <= r.next <= |body|
  {
    LengthAdvances(body, p, []);
    match ReadLength(body, p, [])
    case NoLength(_) => NoField
    case Length(tag, q) =>
      var number, wire := tag / 8, tag % 8;
      if !(1 <= number < MAX_FIELD) then NoField
      else if wire == VARINT then
        LengthAdvances(body, q, []);
        match ReadLength(body, q, []) {
          case NoLength(_) => NoField
          case Length(_, end) => Field(number, wire, q, end)
        }
      else if wire == BYTES then
        LengthAdvances(body, q, []);
        match ReadLength(body, q, []) {
          case NoLength(_) => NoField
          case Length(n, value) => if value + n <= |body| then Field(number, wire, value, value + n) else NoField
        }
      else if wire == START_GROUP || wire == END_GROUP then Field(number, wire, q, q)
      else if wire == FIXED64 then if q + 8 <= |body| then Field(number, wire, q, q + 8) else NoField
      else if wire == FIXED32 then if q + 4 <= |body| then Field(number, wire, q, q + 4) else NoField
      else NoField
  }

  /** The code field: number 1, length-delimited, outside every group. */
  predicate IsCode(f: Field, open: seq<nat>) {
    f.Field? && open == [] && f.number == 1 && f.wire == BYTES
  }

  /** The groups that are open after the tag of the field. */
  function Groups(f: Field, open: seq<nat>): Decoded<seq<nat>>
    requires f.Field?
  {
    if f.wire == START_GROUP then Decoded(open + [f.number])
    else if f.wire != END_GROUP then Decoded(open)
    else if open != [] && open[|open| - 1] == f.number then Decoded(open[..|open| - 1])
    else Malformed
  }

  /** Decodes the fields from `p`, inside the groups `open`; `code` is the code found so far. */
  function DecodeFields(body: seq<Byte>, p: nat, open: seq<nat>, code: seq<Byte>): Decoded<seq<Byte>>
    requires p <= |body|
    decreases |body| - p
  {
    if p == |body| then if open == [] then Decoded(code) else Malformed
    else
      var f := ReadField(body, p);
      if !f.Field? then Malformed
      else
        match Groups(f, open)
        case Malformed => Malformed
        case Decoded(now) => DecodeFields(body, f.next, now, if IsCode(f, open) then body[f.value..f.next] else code)
  }

  /** The code of a body: the last code field, or empty. */
  function DecodeCode(body: seq<Byte>): Decoded<seq<Byte>> {
    DecodeFields(body, 0, [], [])
  }

  /** The code of a body as the scanner takes it: the field the body starts with. */
  function FirstCode(body: seq<Byte>): Decoded<seq<Byte>> {
    if body == [] || body[0] != TAG then Malformed
    else
      match ReadLength(body, 1, [])
      case NoLength(_) => Malformed
      case Length(n, p) => if p + n <= |body| then Decoded(body[p..p + n]) else Malformed
  }

  /** The bodies of the records from `p` to the end of the file. */
  function DecodeBodies(data: seq<Byte>, p: nat): Decoded<seq<seq<Byte>>>
    requires p <= |data|
    decreases |data| - p
  {
    if p == |data| then Decoded([])
    else if data[p] != TAG then Malformed
    else
      match ReadLength(data, p + 1, [])
      case NoLength(_) => Malformed
      case Length(n, body) =>
        LengthAdvances(data, p + 1, []);
        if body + n > |data| then Malformed
        else
          match DecodeBodies(data, body + n)
          case Malformed => Malformed
          case Decoded(rest) => Decoded([data[body..body + n]] + rest)
  }

  function DecodeMessages(bodies: seq<seq<Byte>>): Decoded<seq<Message>> {
    if bodies == [] then Decoded([])
    else
      match DecodeCode(bodies[0])
      case Malformed => Malformed
      case Decoded(code) =>
        match DecodeMessages(bodies[1..])
        case Malformed => Malformed
        case Decoded(rest) => Decoded([Message(code, bodies[0])] + rest)
  }

  /** Decodes the file from `p` to its end. */
  function DecodeList(data: seq<Byte>, p: nat): Decoded<seq<Message>>
    requires p <= |data|
  {
    match DecodeBodies(data, p)
    case Malformed => Malformed
    case Decoded(bodies) => DecodeMessages(bodies)
  }

  ghost predicate Symmetric(eq: Match) {
    forall a, b :: eq(a, b) == eq(b, a)
  }

  /** The body of the first message whose code matches, as the fallback path searches. */
  function Search(messages: seq<Message>, code: seq<Byte>, eq: Match): Outcome {
    if messages == [] then CodeNotFound
    else if eq(code, messages[0].code) then Found(messages[0].body)
    else Search(messages[1..], code, eq)
  }

  /** A length inside a body is the same length at that place of the file. */
  lemma {:induction false} LengthInside(data: seq<Byte>, lo: nat, hi: nat, p: nat, read: seq<Byte>)
    requires lo <= hi <= |data| && ReadLength(data[lo..hi], p, read).Length?
    ensures var inside := ReadLength(data[lo..hi], p, read);
      ReadLength(data, lo + p, read) == Length(inside.value, lo + inside.next)
    decreases hi - lo - p
  {
    var part := data[lo..hi];
    if part[p] > 127 {
      LengthInside(data, lo, hi, p + 1, read + [part[p]]);
    }
  }

  lemma SliceOfSlice(data: seq<Byte>, lo: nat, hi: nat, a: nat, b: nat)
    requires lo <= hi <= |data| && a <= b <= hi - lo
    ensures data[lo..hi][a..b] == data[lo + a..lo + b]
  {
    assert forall i | 0 <= i < b - a :: data[lo..hi][a..b][i] == data[lo + a + i];
  }

  /** On a body that starts with a code the scanner sees that code. */
  lemma BodyStep(data: seq<Byte>, body: nat, n: nat, code: seq<Byte>, eq: Match)
    requires body + n <= |data| < TWO63 && FirstCode(data[body..body + n]).Decoded?
    ensures var part := data[body..body + n];
      AtBody(data, body, n, code, eq)
      == if eq(FirstCode(part).value, code) then Stop(Found(part)) else GoOn(body + n)
  {
    var part := data[body..body + n];
    assert part[0] == data[body];
    LengthInside(data, body, body + n, 1, []);
    var inner := ReadLength(part, 1, []);
    LengthAdvances(part, 1, []);
    SliceOfSlice(data, body, body + n, inner.next, inner.next + inner.value);
  }

  /** A body that decodes and begins with 0A starts with a code. */
  lemma TaggedStarts(body: seq<Byte>)
    requires DecodeCode(body).Decoded? && body != [] && body[0] == TAG
    ensures FirstCode(body).Decoded?
  {
    SmallByte(body, 0);
    assert ReadField(body, 0).Field?;
  }

  lemma BodiesHead(data: seq<Byte>, p: nat)
    requires p < |data| && DecodeBodies(data, p).Decoded?
    ensures var bodies := DecodeBodies(data, p).value;
      var outer := ReadLength(data, p + 1, []);
      && data[p] == TAG && bodies != [] && outer.Length? && p < outer.next && outer.next + outer.value <= |data|
      && DecodeBodies(data, outer.next + outer.value) == Decoded(bodies[1..])
      && bodies[0] == data[outer.next..outer.next + outer.value]
  {
    LengthAdvances(data, p + 1, []);
    var outer := ReadLength(data, p + 1, []);
    var bodies := DecodeBodies(data, p).value;
    assert bodies[1..] == DecodeBodies(data, outer.next + outer.value).value;
  }

  lemma MessagesHead(bodies: seq<seq<Byte>>)
    requires bodies != [] && DecodeMessages(bodies).Decoded?
    ensures var messages := DecodeMessages(bodies).value;
      && messages != [] && messages[0].body == bodies[0] && DecodeCode(bodies[0]) == Decoded(messages[0].code)
      && DecodeMessages(bodies[1..]) == Decoded(messages[1..])
  {
    var messages := DecodeMessages(bodies).value;
    assert messages[1..] == DecodeMessages(bodies[1..]).value;
  }

  /** What the decoder makes of the record at `p` of a file that decodes. */
  lemma ListHead(data: seq<Byte>, p: nat)
    requires p < |data| && DecodeList(data, p).Decoded?
    ensures var messages := DecodeList(data, p).value;
      var outer := ReadLength(data, p + 1, []);
      && data[p] == TAG && messages != [] && outer.Length? && p < outer.next && outer.next + outer.value <= |data|
      && DecodeList(data, outer.next + outer.value) == Decoded(messages[1..])
      && messages[0].body == data[outer.next..outer.next + outer.value]
      && DecodeCode(messages[0].body) == Decoded(messages[0].code)
  {
    BodiesHead(data, p);
    MessagesHead(DecodeBodies(data, p).value);
  }

  lemma RecordHead(data: seq<Byte>, p: nat, code: seq<Byte>, eq: Match)
    requires p < |data| && data[p] == TAG && ReadLength(data, p + 1, []).Length?
    ensures var outer := ReadLength(data, p + 1, []);
      Record(data, p, code, eq) == AtBody(data, outer.next, outer.value, code, eq)
  {
  }

  /** The record does not mislead the scanner: it is not empty, and if it starts with a code, with its own. */
  ghost predicate Plain(m: Message) {
    m.body != [] && (m.body[0] == TAG ==> FirstCode(m.body) == Decoded(m.code))
  }

  ghost predicate AllPlain(messages: seq<Message>) {
    messages == [] || (Plain(messages[0]) && AllPlain(messages[1..]))
  }

  ghost predicate AllTagged(messages: seq<Message>) {
    messages == [] || (messages[0].body != [] && messages[0].body[0] == TAG && AllTagged(messages[1..]))
  }

  /** Where the record at `p` says it ends. */
  function End(data: seq<Byte>, p: nat): nat {
    match ReadLength(data, p + 1, [])
    case Length(n, body) => body + n
    case NoLength(_) => p
  }

  /** What the scanner should do with a record: skip it, emit it, or refuse it for its first byte. */
  function Fitting(m: Message, end: nat, code: seq<Byte>, eq: Match): Step
    requires m.body != []
  {
    if m.body[0] != TAG then Stop(InvalidFile)
    else if eq(m.code, code) then Stop(Found(m.body))
    else GoOn(end)
  }

  /** The scanner does so with every message from `p` to the end of the file. */
  ghost predicate AllFit(data: seq<Byte>, p: nat, messages: seq<Message>, code: seq<Byte>, eq: Match)
    decreases |messages|
  {
    if messages == [] then p == |data|
    else
      && messages[0].body != [] && Record(data, p, code, eq) == Fitting(messages[0], End(data, p), code, eq)
      && AllFit(data, End(data, p), messages[1..], code, eq)
  }

  lemma PlainFits(data: seq<Byte>, p: nat, m: Message, code: seq<Byte>, eq: Match)
    requires p < |data| < TWO63 && data[p] == TAG && ReadLength(data, p + 1, []).Length? && Plain(m)
    requires var outer := ReadLength(data, p + 1, []);
      outer.next + outer.value <= |data| && m.body == data[outer.next..outer.next + outer.value]
    ensures Record(data, p, code, eq) == Fitting(m, End(data, p), code, eq)
  {
    RecordHead(data, p, code, eq);
    var outer := ReadLength(data, p + 1, []);
    assert m.body[0] == data[outer.next];
    if m.body[0] == TAG {
      BodyStep(data, outer.next, outer.value, code, eq);
    }
  }

  lemma {:induction false} PlainFileFits(data: seq<Byte>, p: nat, code: seq<Byte>, eq: Match)
    requires p <= |data| < TWO63 && DecodeList(data, p).Decoded? && AllPlain(DecodeList(data, p).value)
    ensures AllFit(data, p, DecodeList(data, p).value, code, eq)
    decreases |data| - p
  {
    if p < |data| {
      ListHead(data, p);
      PlainFits(data, p, DecodeList(data, p).value[0], code, eq);
      PlainFileFits(data, End(data, p), code, eq);
    }
  }

  lemma ScanOne(data: seq<Byte>, p: nat, code: seq<Byte>, eq: Match, fuel: nat)
    requires fuel > 0
    ensures ScanFrom(data, p, code, eq, fuel)
         == match Record(data, p, code, eq)
            case Stop(o) => Stops(o)
            case GoOn(q) => ScanFrom(data, q, code, eq, fuel - 1)
  {
  }

  lemma SearchOne(messages: seq<Message>, code: seq<Byte>, eq: Match)
    requires Symmetric(eq) && messages != []
    ensures Search(messages, code, eq)
         == if eq(messages[0].code, code) then Found(messages[0].body) else Search(messages[1..], code, eq)
  {
  }

  lemma {:induction false} FittingScan(data: seq<Byte>, p: nat, messages: seq<Message>, code: seq<Byte>, eq: Match)
    requires AllFit(data, p, messages, code, eq) && Symmetric(eq)
    ensures var scan := ScanFrom(data, p, code, eq, |messages| + 1);
      && (scan == Stops(Search(messages, code, eq)) || scan == Stops(InvalidFile))
      && (AllTagged(messages) ==> scan == Stops(Search(messages, code, eq)))
    decreases |messages|
  {
    ScanOne(data, p, code, eq, |messages| + 1);
    if messages != [] {
      SearchOne(messages, code, eq);
      FittingScan(data, End(data, p), messages[1..], code, eq);
    }
  }

  /**
    The scanner refines the search: on every file that decodes into plain records, it returns
    exactly the body of the first matching record, or CodeNotFound, for every symmetric notion
    of a match; or it gives up on the file, which it never does if each record starts with a code.
  */
  lemma ScannerAgrees(data: seq<Byte>, p: nat, code: seq<Byte>, eq: Match)
    requires p <= |data| < TWO63 && DecodeList(data, p).Decoded? && AllPlain(DecodeList(data, p).value)
    requires Symmetric(eq)
    ensures var messages := DecodeList(data, p).value;
      var scan := ScanFrom(data, p, code, eq, |messages| + 1);
      && (scan == Stops(Search(messages, code, eq)) || scan == Stops(InvalidFile))
      && (AllTagged(messages) ==> scan == Stops(Search(messages, code, eq)))
  {
    PlainFileFits(data, p, code, eq);
    FittingScan(data, p, DecodeList(data, p).value, code, eq);
  }

  /** The lookup of the caches: the scanner, and the search over the decoded file where the scanner gives up. */
  function Lookup(data: seq<Byte>, scanned: Outcome, code: seq<Byte>, eq: Match): Outcome {
    if scanned.Found? || scanned == CodeNotFound || scanned == Panic then scanned
    else
      match DecodeList(data, 0)
      case Malformed => scanned
      case Decoded(messages) => Search(messages, code, eq)
  }

  /** With the fallback, the lookup on plain records is always the search, whatever their first fields. */
  lemma LookupAgrees(data: seq<Byte>, code: seq<Byte>, eq: Match, fuel: nat)
    requires |data| < TWO63 && DecodeList(data, 0).Decoded? && AllPlain(DecodeList(data, 0).value)
    requires Symmetric(eq)
    requires fuel > |DecodeList(data, 0).value|
    ensures ScanFrom(data, 0, code, eq, fuel).Stops?
    ensures Lookup(data, ScanFrom(data, 0, code, eq, fuel).outcome, code, eq)
         == Search(DecodeList(data, 0).value, code, eq)
  {
    var messages := DecodeList(data, 0).value;
    ScannerAgrees(data, 0, code, eq);
    MoreFuel(data, 0, code, eq, |messages| + 1, fuel);
    SearchEnds(messages, code, eq);
  }

  lemma {:induction false} SearchEnds(messages: seq<Message>, code: seq<Byte>, eq: Match)
    ensures Search(messages, code, eq).Found? || Search(messages, code, eq) == CodeNotFound
  {
    if messages != [] {
      SearchEnds(messages[1..], code, eq);
    }
  }

  lemma {:induction false} MoreFuel(data: seq<Byte>, p: nat, code: seq<Byte>, eq: Match, fuel: nat, more: nat)
    requires fuel <= more && ScanFrom(data, p, code, eq, fuel).Stops?
    ensures ScanFrom(data, p, code, eq, more) == ScanFrom(data, p, code, eq, fuel)
    decreases fuel
  {
    if Record(data, p, code, eq).GoOn? {
      MoreFuel(data, Record(data, p, code, eq).next, code, eq, fuel - 1, more - 1);
    }
  }

  predicate Same(a: seq<Byte>, b: seq<Byte>) { a == b }

  /** Searching at the body for a code with exact matching stops there exactly if that code stands there. */
  lemma SeenExactly(data: seq<Byte>, body: nat, n: nat, code: seq<Byte>)
    requires body + n <= |data| < TWO63
    ensures AtBody(data, body, n, code, Same) == Stop(Found(data[body..body + n]))
       <==> FirstCode(data[body..]) == Decoded(code)
  {
    var rest := data[body..];
    if rest != [] && rest[0] == TAG {
      LengthAdvances(data, body + 1, []);
      LengthShift(data, body, 1, []);
      var inner := ReadLength(data, body + 1, []);
      if inner.Length? && inner.next + inner.value <= |data| {
        var found := data[inner.next..inner.next + inner.value];
        assert rest[inner.next - body..inner.next - body + inner.value] == found;
        assert ReadAt(data, inner.next, inner.value) == Found(found);
        assert ReadAt(data, body, n) == Found(data[body..body + n]);
      }
    }
  }

  /** Lengths do not depend on what stands before them. */
  lemma {:induction false} LengthShift(data: seq<Byte>, lo: nat, p: nat, read: seq<Byte>)
    requires lo <= |data|
    ensures var inside := ReadLength(data[lo..], p, read);
      ReadLength(data, lo + p, read) == if inside.Length? then Length(inside.value, lo + inside.next) else inside
    decreases |data| - lo - p
  {
    if lo + p < |data| && data[lo + p] > 127 {
      LengthShift(data, lo, p + 1, read + [data[lo + p]]);
    }
  }

  /**
    The condition is exact: searched for by its own code, the record at `p` is emitted if and
    only if what stands at its body is that code; and that is the first field of the body,
    except that an empty record borrows the bytes of the next one.
  */
  lemma EmittedExactly(data: seq<Byte>, p: nat)
    requires p < |data| < TWO63 && DecodeList(data, p).Decoded?
    ensures var messages := DecodeList(data, p).value;
      var outer := ReadLength(data, p + 1, []);
      && messages != [] && outer.Length? && outer.next <= |data|
      && (Record(data, p, messages[0].code, Same) == Stop(Found(messages[0].body))
          <==> FirstCode(data[outer.next..]) == Decoded(messages[0].code))
      && (messages[0].body != [] ==> FirstCode(data[outer.next..]) == FirstCode(messages[0].body))
  {
    ListHead(data, p);
    var messages, outer := DecodeList(data, p).value, ReadLength(data, p + 1, []);
    RecordHead(data, p, messages[0].code, Same);
    BodyExactly(data, outer.next, outer.value, messages[0].code);
  }

  lemma BodyExactly(data: seq<Byte>, body: nat, n: nat, code: seq<Byte>)
    requires body + n <= |data| < TWO63 && DecodeCode(data[body..body + n]) == Decoded(code)
    ensures AtBody(data, body, n, code, Same) == Stop(Found(data[body..body + n]))
       <==> FirstCode(data[body..]) == Decoded(code)
    ensures data[body..body + n] != [] ==> FirstCode(data[body..]) == FirstCode(data[body..body + n])
  {
    SeenExactly(data, body, n, code);
    if n > 0 {
      SeenInside(data, body, body + n);
    }
  }

  lemma SeenInside(data: seq<Byte>, lo: nat, hi: nat)
    requires lo < hi <= |data| && DecodeCode(data[lo..hi]).Decoded?
    ensures FirstCode(data[lo..]) == FirstCode(data[lo..hi])
  {
    assert data[lo..hi][0] == data[lo] == data[lo..][0];
    if data[lo] == TAG {
      TaggedStarts(data[lo..hi]);
      StartsAlike(data, lo, hi);
    }
  }

  lemma StartsAlike(data: seq<Byte>, lo: nat, hi: nat)
    requires lo <= hi <= |data| && FirstCode(data[lo..hi]).Decoded?
    ensures FirstCode(data[lo..]) == FirstCode(data[lo..hi])
  {
    var inner := ReadLength(data[lo..hi], 1, []);
    LengthAdvances(data[lo..hi], 1, []);
    LengthInside(data, lo, hi, 1, []);
    LengthShift(data, lo, 1, []);
    var a, b := inner.next, inner.next + inner.value;
    SliceOfSlice(data, lo, hi, a, b);
    assert data[lo..][a..b] == data[lo + a..lo + b];
  }

  /** No code field from `p` on. */
  ghost predicate NoCode(body: seq<Byte>, p: nat, open: seq<nat>)
    requires p <= |body|
    decreases |body| - p
  {
    p < |body| && ReadField(body, p).Field? ==>
      var f := ReadField(body, p);
      !IsCode(f, open) && (Groups(f, open).Decoded? ==> NoCode(body, f.next, Groups(f, open).value))
  }

  lemma {:induction false} CodeStays(body: seq<Byte>, p: nat, open: seq<nat>, code: seq<Byte>)
    requires p <= |body| && NoCode(body, p, open) && DecodeFields(body, p, open, code).Decoded?
    ensures DecodeFields(body, p, open, code) == Decoded(code)
    decreases |body| - p
  {
    if p < |body| {
      var f := ReadField(body, p);
      CodeStays(body, f.next, Groups(f, open).value, code);
    }
  }

  /** A record whose code comes first, and only there, is plain: what every protobuf writer emits. */
  lemma FirstAndOnce(m: Message)
    requires DecodeCode(m.body) == Decoded(m.code)
    requires m.body != [] && m.body[0] == TAG && NoCode(m.body, ReadField(m.body, 0).next, [])
    ensures Plain(m)
  {
    SmallByte(m.body, 0);
    var f := ReadField(m.body, 0);
    CodeStays(m.body, f.next, [], m.body[f.value..f.next]);
  }

  // ---------- progress on every file, decodable or not ----------

  /**
    After a record that does not match, the cursor stands behind the start of that record,
    even if its code claims to reach beyond its end, unless the stated length is a number
    of 2^63 or more that wraps around to a step back of between the header and the whole
    file so far.  It stands exactly at the stated end of the body if that end is below 2^63;
    if the length is below 2^63 and the end is not, the seek fails and it stays inside the body.
  */
  lemma CursorAdvances(data: seq<Byte>, p: nat, code: seq<Byte>, eq: Match)
    requires Record(data, p, code, eq).GoOn?
    ensures var next := Record(data, p, code, eq).next;
      var outer := ReadLength(data, p + 1, []);
      && outer.Length? && p < outer.next
      && (outer.next + outer.value < TWO63 ==> next == outer.next + outer.value)
      && (outer.value < TWO63 <= outer.next + outer.value ==> outer.next < next <= |data|)
      && (next > p <==>
            !(TWO63 <= outer.value && outer.next - p <= TWO64 - outer.value <= outer.next
              && outer.next + outer.value < TWO63 + TWO64))
  {
    LengthAdvances(data, p + 1, []);
    var outer := ReadLength(data, p + 1, []);
    LengthAdvances(data, outer.next + 1, []);
  }

  /** Every record the scan skips states a length below 2^63. */
  ghost predicate SmallLengths(data: seq<Byte>, p: nat, code: seq<Byte>, eq: Match, fuel: nat)
    decreases fuel
  {
    fuel > 0 && Record(data, p, code, eq).GoOn? ==>
      && ReadLength(data, p + 1, []).Length? && ReadLength(data, p + 1, []).value < TWO63
      && SmallLengths(data, Record(data, p, code, eq).next, code, eq, fuel - 1)
  }

  /** Then the scan stops, after at most one record per byte of the file. */
  lemma {:induction false} ScanStops(data: seq<Byte>, p: nat, code: seq<Byte>, eq: Match, fuel: nat)
    requires SmallLengths(data, p, code, eq, fuel) && fuel + p > |data|
    requires fuel > 0
    ensures ScanFrom(data, p, code, eq, fuel).Stops?
    decreases fuel
  {
    if Record(data, p, code, eq).GoOn? {
      CursorAdvances(data, p, code, eq);
      ScanStops(data, Record(data, p, code, eq).next, code, eq, fuel - 1);
    }
  }

  /** A one-record file whose length wraps around to a step back to its own start. */
  const LOOP_FILE: seq<Byte> := [10, 245, 255, 255, 255, 255, 255, 255, 255, 255, 1, 10, 0]

  lemma LoopLength()
    ensures ReadLength(LOOP_FILE, 1, []) == Length(TWO64 - 11, 11)
  {
    var v := LOOP_FILE[1..11];
    LoopDigits();
    assert v == [245, 255, 255, 255, 255, 255, 255, 255, 255, 1];
    assert Complete(v);
    ReadsFitting(LOOP_FILE, 1, v);
  }

  lemma LoopCode()
    ensures ReadLength(LOOP_FILE, 12, []) == Length(0, 13)
  {
    SmallByte(LOOP_FILE, 12);
  }

  /** `k` bytes 255 and a final 1. */
  function Ones(k: nat): seq<Byte> {
    if k == 0 then [1] else [255] + Ones(k - 1)
  }

  lemma {:induction false} OnesDigits(k: nat)
    ensures Digits(Ones(k)) == 2 * Power(k) - 1
  {
    if k == 0 {
      assert Ones(0)[1..] == [];
    } else {
      OnesDigits(k - 1);
      assert Ones(k)[1..] == Ones(k - 1);
    }
  }

  lemma LoopDigits()
    ensures Digits(LOOP_FILE[1..11]) == TWO64 - 11
  {
    var b := LOOP_FILE[1..11];
    assert Ones(4) == [255, 255, 255, 255, 1];
    assert b[1..] == Ones(8);
    OnesDigits(8);
    PowerNine();
  }

  /** On that file the scan never stops unless the empty code is what is searched for. */
  lemma {:induction false} ScanLoops(code: seq<Byte>, eq: Match, fuel: nat)
    requires !eq([], code)
    ensures ScanFrom(LOOP_FILE, 0, code, eq, fuel) == Running
  {
    LoopLength();
    LoopCode();
    if fuel > 0 {
      ScanLoops(code, eq, fuel - 1);
    }
  }

  // ---------- every list of records has a file that decodes to it ----------

  /** The shortest varint of `n`, as protobuf writers emit it. */
  function EncodeVarint(n: nat): seq<Byte> {
    if n < 128 then [n] else [n % 128 + 128] + EncodeVarint(n / 128)
  }

  lemma {:induction false} EncodedVarint(n: nat, k: nat)
    requires n < Power(k) && k > 0
    ensures |EncodeVarint(n)| <= k && Digits(EncodeVarint(n)) == n
    decreases k
  {
    if n >= 128 {
      assert n / 128 < Power(k - 1);
      EncodedVarint(n / 128, k - 1);
      assert EncodeVarint(n)[1..] == EncodeVarint(n / 128);
    } else {
      assert [n][1..] == [];
    }
  }

  lemma {:induction false} EncodedComplete(n: nat)
    ensures Complete(EncodeVarint(n))
  {
    if n >= 128 {
      EncodedComplete(n / 128);
    }
  }

  lemma WrittenFits(n: nat)
    requires n < TWO63
    ensures VarintFits(EncodeVarint(n)) && Complete(EncodeVarint(n)) && Digits(EncodeVarint(n)) == n
  {
    PowerNine();
    EncodedVarint(n, 9);
    EncodedComplete(n);
  }

  /** Reading back a written length below 2^63. */
  lemma ReadBack(n: nat, data: seq<Byte>, p: nat)
    requires n < TWO63
    requires p + |EncodeVarint(n)| <= |data| && data[p..p + |EncodeVarint(n)|] == EncodeVarint(n)
    ensures ReadLength(data, p, []) == Length(n, p + |EncodeVarint(n)|)
  {
    WrittenFits(n);
    ReadsFitting(data, p, EncodeVarint(n));
  }

  /** A field behind the code: length-delimited with another number, or a number. */
  datatype Extra = Data(number: nat, bytes: seq<Byte>) | Number(number: nat, value: nat) {
    predicate Valid() {
      1 <= number < MAX_FIELD && (if Data? then number != 1 else value < TWO63)
    }
  }

  datatype Content = Content(code: seq<Byte>, rest: seq<Extra>) {
    ghost predicate Valid() { forall e | e in rest :: e.Valid() }
  }

  function EncodeExtra(e: Extra): seq<Byte> {
    match e
    case Data(number, bytes) => EncodeVarint(8 * number + BYTES) + (EncodeVarint(|bytes|) + bytes)
    case Number(number, value) => EncodeVarint(8 * number + VARINT) + EncodeVarint(value)
  }

  function EncodeExtras(rest: seq<Extra>): seq<Byte> {
    if rest == [] then [] else EncodeExtra(rest[0]) + EncodeExtras(rest[1..])
  }

  function EncodeBody(c: Content): seq<Byte> {
    [TAG] + EncodeVarint(|c.code|) + c.code + EncodeExtras(c.rest)
  }

  function EncodeList(contents: seq<Content>): seq<Byte> {
    if contents == [] then []
    else
      var body := EncodeBody(contents[0]);
      [TAG] + EncodeVarint(|body|) + body + EncodeList(contents[1..])
  }

  /** Wherever `v` stands, reading a length gives `n` and consumes exactly `v`. */
  ghost predicate Reads(v: seq<Byte>, n: nat) {
    forall data: seq<Byte>, p: nat | p + |v| <= |data| && data[p..p + |v|] == v ::
      ReadLength(data, p, []) == Length(n, p + |v|)
  }

  lemma WrittenReads(n: nat)
    requires n < TWO63
    ensures Reads(EncodeVarint(n), n)
  {
    var v := EncodeVarint(n);
    forall data: seq<Byte>, p: nat | p + |v| <= |data| && data[p..p + |v|] == v
      ensures ReadLength(data, p, []) == Length(n, p + |v|)
    {
      ReadBack(n, data, p);
    }
  }

  lemma ReadsWithin(prefix: seq<Byte>, v: seq<Byte>, n: nat, tail: seq<Byte>)
    requires Reads(v, n)
    ensures ReadLength(prefix + (v + tail), |prefix|, []) == Length(n, |prefix| + |v|)
  {
    var data := prefix + (v + tail);
    assert data[|prefix|..|prefix| + |v|] == v;
  }

  /** A tag and a number behind it make a field. */
  lemma FieldReads(data: seq<Byte>, p: nat, number: nat, wire: nat, q: nat, n: nat, value: nat)
    requires 1 <= number < MAX_FIELD && (wire == VARINT || (wire == BYTES && value + n <= |data|))
    requires ReadLength(data, p, []) == Length(8 * number + wire, q)
    requires ReadLength(data, q, []) == Length(n, value)
    ensures ReadField(data, p)
         == if wire == VARINT then Field(number, wire, q, value) else Field(number, wire, value, value + n)
  {
    assert (8 * number + wire) / 8 == number && (8 * number + wire) % 8 == wire;
  }

  /** A tag `t`, a number `v` and the bytes it counts, if any, in the middle of a message. */
  lemma PartsRead(prefix: seq<Byte>, number: nat, wire: nat, t: seq<Byte>, v: seq<Byte>, n: nat, rest: seq<Byte>)
    requires 1 <= number < MAX_FIELD && (wire == VARINT || (wire == BYTES && n <= |rest|))
    requires Reads(t, 8 * number + wire) && Reads(v, n)
    ensures var q, value := |prefix| + |t|, |prefix| + |t| + |v|;
      ReadField(prefix + (t + (v + rest)), |prefix|)
      == if wire == VARINT then Field(number, wire, q, value) else Field(number, wire, value, value + n)
  {
    ReadsWithin(prefix, t, 8 * number + wire, v + rest);
    Assoc(prefix, t, v + rest);
    ReadsWithin(prefix + t, v, n, rest);
    FieldReads(prefix + (t + (v + rest)), |prefix|, number, wire, |prefix| + |t|, n, |prefix| + |t| + |v|);
  }

  /** Wherever `x` stands outside a group, it is read as a field that is no code and ends where `x` ends. */
  ghost predicate ReadsAsExtra(x: seq<Byte>) {
    forall prefix: seq<Byte>, tail: seq<Byte> :: ExtraAt(prefix, x, tail)
  }

  ghost predicate ExtraAt(prefix: seq<Byte>, x: seq<Byte>, tail: seq<Byte>) {
    var f := ReadField(prefix + (x + tail), |prefix|);
    && f.Field? && f.next == |prefix + x|
    && !IsCode(f, []) && f.wire != START_GROUP && f.wire != END_GROUP
  }

  lemma DataReads(number: nat, t: seq<Byte>, v: seq<Byte>, bytes: seq<Byte>)
    requires 1 < number < MAX_FIELD && Reads(t, 8 * number + BYTES) && Reads(v, |bytes|)
    ensures ReadsAsExtra(t + (v + bytes))
  {
    forall prefix: seq<Byte>, tail: seq<Byte>
      ensures ExtraAt(prefix, t + (v + bytes), tail)
    {
      PartsRead(prefix, number, BYTES, t, v, |bytes|, bytes + tail);
      PartsTogether(t, v, bytes, tail);
    }
  }

  lemma NumberReads(number: nat, t: seq<Byte>, v: seq<Byte>, value: nat)
    requires 1 <= number < MAX_FIELD && Reads(t, 8 * number + VARINT) && Reads(v, value)
    ensures ReadsAsExtra(t + v)
  {
    forall prefix: seq<Byte>, tail: seq<Byte>
      ensures ExtraAt(prefix, t + v, tail)
    {
      PartsRead(prefix, number, VARINT, t, v, value, tail);
      Assoc(t, v, tail);
    }
  }

  lemma WrittenData(number: nat, bytes: seq<Byte>)
    requires 1 < number < MAX_FIELD && |bytes| < TWO63
    ensures ReadsAsExtra(EncodeVarint(8 * number + BYTES) + (EncodeVarint(|bytes|) + bytes))
  {
    WrittenReads(8 * number + BYTES);
    WrittenReads(|bytes|);
    DataReads(number, EncodeVarint(8 * number + BYTES), EncodeVarint(|bytes|), bytes);
  }

  lemma WrittenNumber(number: nat, value: nat)
    requires 1 <= number < MAX_FIELD && value < TWO63
    ensures ReadsAsExtra(EncodeVarint(8 * number + VARINT) + EncodeVarint(value))
  {
    WrittenReads(8 * number + VARINT);
    WrittenReads(value);
    NumberReads(number, EncodeVarint(8 * number + VARINT), EncodeVarint(value), value);
  }

  lemma ExtraReads(e: Extra)
    requires e.Valid() && |EncodeExtra(e)| < TWO63
    ensures ReadsAsExtra(EncodeExtra(e))
  {
    match e
    case Data(number, bytes) => WrittenData(number, bytes);
    case Number(number, value) => WrittenNumber(number, value);
  }

  lemma PartsTogether(t: seq<Byte>, v: seq<Byte>, bytes: seq<Byte>, tail: seq<Byte>)
    ensures (t + (v + bytes)) + tail == t + (v + (bytes + tail))
  {
    Assoc(t, v + bytes, tail);
    Assoc(v, bytes, tail);
  }

  /** The fields behind the code leave it as it is. */
  lemma {:induction false} ExtrasDecode(prefix: seq<Byte>, rest: seq<Extra>, code: seq<Byte>)
    requires (forall e | e in rest :: e.Valid()) && |prefix| + |EncodeExtras(rest)| < TWO63
    ensures DecodeFields(prefix + EncodeExtras(rest), |prefix|, [], code) == Decoded(code)
    decreases |rest|
  {
    if rest == [] {
      assert prefix + [] == prefix;
    } else {
      var head, tail := EncodeExtra(rest[0]), EncodeExtras(rest[1..]);
      Assoc(prefix, head, tail);
      ExtraReads(rest[0]);
      assert ExtraAt(prefix, head, tail);
      ExtrasDecode(prefix + head, rest[1..], code);
    }
  }

  /** A body that begins with a code field goes on behind it. */
  lemma CodeFieldFirst(body: seq<Byte>, value: nat, next: nat)
    requires body != [] && ReadField(body, 0) == Field(1, BYTES, value, next)
    ensures value <= next <= |body| && DecodeCode(body) == DecodeFields(body, next, [], body[value..next])
  {
  }

  lemma CodeFieldReads(v: seq<Byte>, code: seq<Byte>, rest: seq<Byte>)
    requires Reads(v, |code|)
    ensures var head := [TAG] + v + code;
      && ReadField(head + rest, 0) == Field(1, BYTES, 1 + |v|, |head|)
      && (head + rest)[1 + |v|..|head|] == code
  {
    var body := [TAG] + v + code + rest;
    AssocFour([TAG], v, code, rest);
    Assoc([TAG], v, code + rest);
    ReadsWithin([TAG], v, |code|, code + rest);
    SmallByte(body, 0);
    FieldReads(body, 0, 1, BYTES, 1, |code|, 1 + |v|);
  }

  lemma BodyDecodes(c: Content)
    requires c.Valid() && |EncodeBody(c)| < TWO63
    ensures DecodeCode(EncodeBody(c)) == Decoded(c.code)
  {
    var v := EncodeVarint(|c.code|);
    var head := [TAG] + v + c.code;
    WrittenReads(|c.code|);
    CodeFieldReads(v, c.code, EncodeExtras(c.rest));
    CodeFieldFirst(EncodeBody(c), 1 + |v|, |head|);
    ExtrasDecode(head, c.rest, c.code);
  }

  function Bodies(contents: seq<Content>): seq<seq<Byte>> {
    if contents == [] then [] else [EncodeBody(contents[0])] + Bodies(contents[1..])
  }

  function Messages(contents: seq<Content>): seq<Message> {
    if contents == [] then []
    else [Message(contents[0].code, EncodeBody(contents[0]))] + Messages(contents[1..])
  }

  /** A tag, a length and a body in the middle of a file. */
  lemma RecordReads(prefix: seq<Byte>, v: seq<Byte>, body: seq<Byte>, tail: seq<Byte>)
    requires Reads(v, |body|)
    ensures var head := [TAG] + v + body;
      var data := prefix + head + tail;
      && data[|prefix|] == TAG
      && ReadLength(data, |prefix| + 1, []) == Length(|body|, |prefix + head| - |body|)
      && data[|prefix + head| - |body|..|prefix + head|] == body
  {
    Assoc([TAG], v, body);
    AssocFour(prefix, [TAG], v + body, tail);
    Assoc(v, body, tail);
    ReadsWithin(prefix + [TAG], v, |body|, body + tail);
  }

  lemma BodiesStep(data: seq<Byte>, p: nat, body: nat, end: nat, rest: seq<seq<Byte>>)
    requires p < |data| && data[p] == TAG && p < body <= end <= |data|
    requires ReadLength(data, p + 1, []) == Length(end - body, body) && DecodeBodies(data, end) == Decoded(rest)
    ensures DecodeBodies(data, p) == Decoded([data[body..end]] + rest)
  {
  }

  lemma {:induction false} BodiesDecode(prefix: seq<Byte>, contents: seq<Content>)
    requires |prefix| + |EncodeList(contents)| < TWO63
    ensures DecodeBodies(prefix + EncodeList(contents), |prefix|) == Decoded(Bodies(contents))
    decreases |contents|
  {
    if contents == [] {
      assert prefix + [] == prefix;
    } else {
      var body, tail := EncodeBody(contents[0]), EncodeList(contents[1..]);
      var head := [TAG] + EncodeVarint(|body|) + body;
      Assoc(prefix, head, tail);
      WrittenReads(|body|);
      RecordReads(prefix, EncodeVarint(|body|), body, tail);
      BodiesDecode(prefix + head, contents[1..]);
      BodiesStep(prefix + head + tail, |prefix|, |prefix + head| - |body|, |prefix + head|, Bodies(contents[1..]));
    }
  }

  lemma {:induction false} MessagesDecode(contents: seq<Content>)
    requires (forall c | c in contents :: c.Valid()) && |EncodeList(contents)| < TWO63
    ensures DecodeMessages(Bodies(contents)) == Decoded(Messages(contents))
  {
    if contents != [] {
      BodyDecodes(contents[0]);
      MessagesDecode(contents[1..]);
      assert Bodies(contents)[1..] == Bodies(contents[1..]);
    }
  }

  /** Writing a list and decoding it gives the list back. */
  lemma ListDecodes(prefix: seq<Byte>, contents: seq<Content>)
    requires (forall c | c in contents :: c.Valid()) && |prefix| + |EncodeList(contents)| < TWO63
    ensures DecodeList(prefix + EncodeList(contents), |prefix|) == Decoded(Messages(contents))
  {
    BodiesDecode(prefix, contents);
    MessagesDecode(contents);
  }

  // ---------- a record that misleads the scanner ----------

  /** A file with one record that has two code fields, first `a` and then `b`. */
  const TWICE: seq<Byte> := [10, 6, 10, 1, 97, 10, 1, 98]

  lemma TwoCodes(body: seq<Byte>)
    requires |body| == 6 && body[0] == TAG && body[1] == 1 && body[3] == TAG && body[4] == 1
    ensures FirstCode(body) == Decoded(body[2..3]) && DecodeCode(body) == Decoded(body[5..6])
  {
    SmallByte(body, 0);
    SmallByte(body, 1);
    FieldReads(body, 0, 1, BYTES, 1, 1, 2);
    CodeFieldFirst(body, 2, 3);
    SmallByte(body, 3);
    SmallByte(body, 4);
    FieldReads(body, 3, 1, BYTES, 4, 1, 5);
  }

  lemma OneRecord(data: seq<Byte>, code: seq<Byte>)
    requires |data| == 8 && data[0] == TAG && data[1] == 6 && DecodeCode(data[2..8]) == Decoded(code)
    ensures DecodeList(data, 0) == Decoded([Message(code, data[2..8])])
  {
    SmallByte(data, 1);
    BodiesStep(data, 0, 2, 8, []);
    MessagesStep(data[2..8], code);
  }

  lemma MessagesStep(body: seq<Byte>, code: seq<Byte>)
    requires DecodeCode(body) == Decoded(code)
    ensures DecodeMessages([body] + []) == Decoded([Message(code, body)])
  {
    var bodies := [body] + [];
    assert bodies[0] == body && bodies[1..] == [] && [Message(code, body)] + [] == [Message(code, body)];
  }

  lemma OneRecordScanned(data: seq<Byte>, code: seq<Byte>)
    requires |data| == 8 && data[0] == TAG && data[1] == 6 && FirstCode(data[2..8]).Decoded?
    requires FirstCode(data[2..8]).value != code
    ensures Record(data, 0, code, Same) == GoOn(8)
  {
    SmallByte(data, 1);
    RecordHead(data, 0, code, Same);
    BodyStep(data, 2, 6, code, Same);
  }

  /** Decoded, it is the record of code `b`; the scanner takes it for a record of code `a` and skips it. */
  lemma TwoCodesMissed()
    ensures DecodeList(TWICE, 0) == Decoded([Message([98], TWICE[2..])])
    ensures Search([Message([98], TWICE[2..])], [98], Same) == Found(TWICE[2..])
    ensures ScanFrom(TWICE, 0, [98], Same, 2) == Stops(CodeNotFound)
    ensures Lookup(TWICE, CodeNotFound, [98], Same) == CodeNotFound
  {
    var body := TWICE[2..8];
    assert body == TWICE[2..] && body[2..3] == [97] && body[5..6] == [98];
    TwoCodes(body);
    OneRecord(TWICE, [98]);
    OneRecordScanned(TWICE, [98]);
    ScanOne(TWICE, 0, [98], Same, 2);
    ScanOne(TWICE, 8, [98], Same, 1);
  }
}
