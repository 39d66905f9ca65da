/**
  The rewinding reader (common/io.go).

  `data` is the whole stream of the connection below, of which `raw` bytes have been read.
  While buffering, what is read from below is also kept in `buf`; after Rewind it is served
  again before anything new is read.  `mark` is where buffering began.
*/
module RewindReader {
  import opened Bytes
  import opened Numbers
  import opened Seqs

  datatype Reader = Reader(
    data: seq<Byte>,
    raw: nat,
    buf: seq<Byte>,
    bufReadIdx: nat,
    rewound: bool,
    buffering: bool,
    bufferSize: int,
    mark: nat)

  function Fresh(data: seq<Byte>): Reader {
    Reader(data, 0, [], 0, false, false, 0, 0)
  }

  /** The buffer is a stretch of the stream; while buffering it reaches to what was read last. */
  ghost predicate Valid(r: Reader) {
    && r.raw <= |r.data| && r.bufReadIdx <= |r.buf|
    && r.mark + |r.buf| <= r.raw && (forall i | 0 <= i < |r.buf| :: r.buf[i] == r.data[r.mark + i])
    && (r.buffering ==> r.mark + |r.buf| == r.raw)
  }

  datatype Got = Got(reader: Reader, bytes: seq<Byte>)

  /** A read served from the buffer. */
  function ReadAgain(r: Reader, size: nat): Got
    requires r.bufReadIdx < |r.buf|
  {
    var n := Min(size, |r.buf| - r.bufReadIdx);
    Got(r.(bufReadIdx := r.bufReadIdx + n), r.buf[r.bufReadIdx..r.bufReadIdx + n])
  }

  /** A read from below, which has `chunk` bytes ready, or fails with none. */
  function ReadRaw(r: Reader, size: nat, chunk: nat): Got
    requires r.raw <= |r.data|
  {
    var n := Min(Min(size, chunk), |r.data| - r.raw);
    var bytes := r.data[r.raw..r.raw + n];
    Got(r.(rewound := false, raw := r.raw + n, buf := if r.buffering then r.buf + bytes else r.buf), bytes)
  }

  function Read(r: Reader, size: nat, chunk: nat): Got
    requires r.raw <= |r.data|
  {
    if r.rewound && |r.buf| > r.bufReadIdx then ReadAgain(r, size) else ReadRaw(r, size, chunk)
  }

  /** Panics without a buffer. */
  function Rewind(r: Reader): Reader {
    r.(rewound := true, bufReadIdx := 0)
  }

  function StopBuffering(r: Reader): Reader {
    r.(buffering := false)
  }

  /** Panics when the reader is already in the state asked for. */
  function SetBufferSize(r: Reader, size: int): Reader {
    r.(buffering := size != 0, buf := [], bufReadIdx := 0, bufferSize := size, mark := r.raw)
  }

  // ---------- what the reader has still to give ----------

  function Unread(r: Reader): seq<Byte> {
    if r.rewound && r.bufReadIdx <= |r.buf| then r.buf[r.bufReadIdx..] else []
  }

  /** Everything that reads will return from now on. */
  function Remaining(r: Reader): seq<Byte>
    requires r.raw <= |r.data|
  {
    Unread(r) + r.data[r.raw..]
  }

  lemma Cut<T>(s: seq<T>, i: nat, j: nat)
    requires i <= j <= |s|
    ensures s[i..] == s[i..j] + s[j..]
  {
  }

  lemma ReadAgainTakesFront(r: Reader, size: nat)
    requires Valid(r) && r.rewound && r.bufReadIdx < |r.buf|
    ensures var g := ReadAgain(r, size);
      Valid(g.reader) && |g.bytes| <= size && Remaining(r) == g.bytes + Remaining(g.reader)
  {
    var g := ReadAgain(r, size);
    Cut(r.buf, r.bufReadIdx, g.reader.bufReadIdx);
    Assoc(g.bytes, Unread(g.reader), r.data[r.raw..]);
  }

  lemma ReadRawValid(r: Reader, size: nat, chunk: nat)
    requires Valid(r)
    ensures Valid(ReadRaw(r, size, chunk).reader)
  {
    var g := ReadRaw(r, size, chunk);
    forall i | 0 <= i < |g.reader.buf|
      ensures g.reader.buf[i] == r.data[r.mark + i]
    {
      if i >= |r.buf| {
        assert g.reader.buf[i] == g.bytes[i - |r.buf|];
      }
    }
  }

  lemma ReadRawTakesFront(r: Reader, size: nat, chunk: nat)
    requires Valid(r) && Unread(r) == []
    ensures var g := ReadRaw(r, size, chunk);
      Valid(g.reader) && |g.bytes| <= size && Remaining(r) == g.bytes + Remaining(g.reader)
  {
    var g := ReadRaw(r, size, chunk);
    ReadRawValid(r, size, chunk);
    Cut(r.data, r.raw, g.reader.raw);
    EmptyFront(r.data[r.raw..]);
    EmptyFront(r.data[g.reader.raw..]);
  }

  lemma EmptyFront<T>(s: seq<T>)
    ensures [] + s == s
  {
  }

  /** Reading takes bytes off the front of that, in order, and nothing else. */
  lemma ReadTakesFront(r: Reader, size: nat, chunk: nat)
    requires Valid(r)
    ensures var g := Read(r, size, chunk);
      Valid(g.reader) && |g.bytes| <= size && Remaining(r) == g.bytes + Remaining(g.reader)
  {
    if r.rewound && |r.buf| > r.bufReadIdx {
      ReadAgainTakesFront(r, size);
    } else {
      ReadRawTakesFront(r, size, chunk);
    }
  }

  /** Bytes read from below since the mark that were not kept. */
  function Missed(r: Reader): int {
    r.raw - (r.mark + |r.buf|)
  }

  /** Rewinding goes back to the mark exactly if nothing was read past the buffer since. */
  lemma RewindExactly(r: Reader)
    requires Valid(r)
    ensures Valid(Rewind(r))
    ensures Remaining(Rewind(r)) == r.data[r.mark..] <==> Missed(r) == 0
  {
    if Missed(r) == 0 {
      assert r.buf == r.data[r.mark..r.raw];
      Cut(r.data, r.mark, r.raw);
    } else {
      assert |Remaining(Rewind(r))| < |r.data[r.mark..]|;
    }
  }

  /** Starting to buffer, or giving the buffer up, loses exactly the bytes rewound over and not read again. */
  lemma SetBufferSizeExactly(r: Reader, size: int)
    requires Valid(r)
    ensures Valid(SetBufferSize(r, size))
    ensures Remaining(SetBufferSize(r, size)) == r.data[r.raw..]
    ensures Remaining(SetBufferSize(r, size)) == Remaining(r) <==> !(r.rewound && r.bufReadIdx < |r.buf|)
  {
    assert [] + r.data[r.raw..] == r.data[r.raw..];
    if r.rewound && r.bufReadIdx < |r.buf| {
      assert |Remaining(SetBufferSize(r, size))| < |Remaining(r)|;
    }
  }

  // ---------- every schedule of reads, rewinds and stops ----------

  datatype Op = ReadOp(size: nat, chunk: nat) | RewindOp | StopOp

  function Apply(r: Reader, op: Op): Got
    requires r.raw <= |r.data|
  {
    match op
    case ReadOp(size, chunk) => Read(r, size, chunk)
    case RewindOp => Got(Rewind(r), [])
    case StopOp => Got(StopBuffering(r), [])
  }

  /** A cursor on the stream: reads move it forward, rewinding takes it back to the mark. */
  datatype Cursor = Cursor(pos: nat, mark: nat)

  /** What a reader looks like to its user, when it has missed nothing it may still need. */
  ghost predicate Behaves(r: Reader, c: Cursor) {
    Valid(r) && c.mark == r.mark && c.pos <= |r.data| && Remaining(r) == r.data[c.pos..]
  }

  /** An operation of the cursor that gives out `n` bytes. */
  function Move(c: Cursor, op: Op, n: nat): Cursor {
    match op
    case ReadOp(_, _) => c.(pos := c.pos + n)
    case RewindOp => c.(pos := c.mark)
    case StopOp => c
  }

  ghost predicate Follows(r: Reader, c: Cursor, ops: seq<Op>)
    requires r.raw <= |r.data|
    decreases |ops|
  {
    if ops == [] then true
    else
      var g := Apply(r, ops[0]);
      var d := Move(c, ops[0], |g.bytes|);
      && c.pos + |g.bytes| <= |r.data| && g.bytes == r.data[c.pos..c.pos + |g.bytes|]
      && g.reader.raw <= |g.reader.data| && g.reader.data == r.data
      && Follows(g.reader, d, ops[1..])
  }

  /** No raw read lies between StopBuffering and a later Rewind: at each Rewind nothing has been missed. */
  ghost predicate NoGap(r: Reader, ops: seq<Op>)
    requires r.raw <= |r.data|
    decreases |ops|
  {
    if ops == [] then true
    else
      var t := Apply(r, ops[0]).reader;
      (ops[0].RewindOp? ==> Missed(r) == 0) && t.raw <= |t.data| && NoGap(t, ops[1..])
  }

  lemma Front(data: seq<Byte>, pos: nat, bytes: seq<Byte>, rest: seq<Byte>)
    requires pos <= |data| && data[pos..] == bytes + rest
    ensures pos + |bytes| <= |data| && data[pos..pos + |bytes|] == bytes && data[pos + |bytes|..] == rest
  {
    assert |data[pos..]| == |bytes| + |rest|;
    assert data[pos..][..|bytes|] == bytes && data[pos..][|bytes|..] == rest;
  }

  ghost predicate Stays(r: Reader, c: Cursor, g: Got, d: Cursor) {
    && Behaves(g.reader, d) && g.reader.data == r.data
    && c.pos + |g.bytes| <= |r.data| && g.bytes == r.data[c.pos..c.pos + |g.bytes|]
  }

  lemma ReadBehaves(r: Reader, c: Cursor, size: nat, chunk: nat)
    requires Behaves(r, c)
    ensures var g := Read(r, size, chunk); Stays(r, c, g, c.(pos := c.pos + |g.bytes|))
  {
    var g := Read(r, size, chunk);
    ReadTakesFront(r, size, chunk);
    Front(r.data, c.pos, g.bytes, Remaining(g.reader));
  }

  lemma ApplyBehaves(r: Reader, c: Cursor, op: Op)
    requires Behaves(r, c) && (op.RewindOp? ==> Missed(r) == 0)
    ensures var g := Apply(r, op); Stays(r, c, g, Move(c, op, |g.bytes|))
  {
    match op
    case ReadOp(size, chunk) => ReadBehaves(r, c, size, chunk);
    case RewindOp => RewindExactly(r);
    case StopOp =>
  }

  /** Over every schedule without a gap, the reader returns what the cursor would. */
  lemma {:induction false} ReadsLikeCursor(r: Reader, c: Cursor, ops: seq<Op>)
    requires Behaves(r, c) && NoGap(r, ops)
    ensures Follows(r, c, ops)
    decreases |ops|
  {
    if ops != [] {
      ApplyBehaves(r, c, ops[0]);
      ReadsLikeCursor(Apply(r, ops[0]).reader, Move(c, ops[0], |Apply(r, ops[0]).bytes|), ops[1..]);
    }
  }

  /** What a caller sees of a read: the front of what remains, and nothing only if nothing was ready or left. */
  ghost predicate TookFront(r: Reader, t: Reader, size: nat, chunk: nat, bytes: seq<Byte>) {
    && Valid(r) && Valid(t) && |bytes| <= size && Remaining(r) == bytes + Remaining(t)
    && t.mark == r.mark && t.buffering == r.buffering
    && (bytes == [] && size > 0 && chunk > 0 ==> Remaining(t) == [])
  }

  lemma ReadTook(r: Reader, size: nat, chunk: nat)
    requires Valid(r)
    ensures TookFront(r, Read(r, size, chunk).reader, size, chunk, Read(r, size, chunk).bytes)
  {
    ReadTakesFront(r, size, chunk);
    if size > 0 && Read(r, size, chunk).bytes == [] {
      NothingLeft(r, size, chunk);
    }
  }

  /** No read lies between a stop and a later rewind. */
  ghost predicate NeverReadsBetween(ops: seq<Op>) {
    forall i, j, k | 0 <= i < j < k < |ops| && ops[i].StopOp? && ops[j].ReadOp? :: !ops[k].RewindOp?
  }

  ghost predicate NoRewindAfterRead(ops: seq<Op>) {
    forall j, k | 0 <= j < k < |ops| && ops[j].ReadOp? :: !ops[k].RewindOp?
  }

  lemma {:induction false} NoRewindNoGap(r: Reader, ops: seq<Op>)
    requires Valid(r) && forall op | op in ops :: !op.RewindOp?
    ensures NoGap(r, ops)
    decreases |ops|
  {
    if ops != [] {
      assert ops[0] in ops;
      if ops[0].ReadOp? {
        ReadTakesFront(r, ops[0].size, ops[0].chunk);
      }
      NoRewindNoGap(Apply(r, ops[0]).reader, ops[1..]);
    }
  }

  lemma {:induction false} StoppedHasNoGap(r: Reader, ops: seq<Op>)
    requires Valid(r) && Missed(r) == 0 && NoRewindAfterRead(ops)
    ensures NoGap(r, ops)
    decreases |ops|
  {
    if ops != [] {
      if ops[0].ReadOp? {
        ReadTakesFront(r, ops[0].size, ops[0].chunk);
        assert forall k | 0 < k < |ops| :: !ops[k].RewindOp?;
        NoRewindNoGap(Apply(r, ops[0]).reader, ops[1..]);
      } else {
        assert forall i | 0 <= i < |ops| - 1 :: ops[1..][i] == ops[i + 1];
        StoppedHasNoGap(Apply(r, ops[0]).reader, ops[1..]);
      }
    }
  }

  /** A reader that buffers has no gap on any schedule without a read between a stop and a later rewind. */
  lemma {:induction false} ScheduleHasNoGap(r: Reader, ops: seq<Op>)
    requires Valid(r) && r.buffering && NeverReadsBetween(ops)
    ensures NoGap(r, ops)
    decreases |ops|
  {
    if ops != [] {
      assert forall i | 0 <= i < |ops| - 1 :: ops[1..][i] == ops[i + 1];
      if ops[0].StopOp? {
        StoppedHasNoGap(StopBuffering(r), ops[1..]);
      } else {
        if ops[0].ReadOp? {
          ReadTakesFront(r, ops[0].size, ops[0].chunk);
        }
        ScheduleHasNoGap(Apply(r, ops[0]).reader, ops[1..]);
      }
    }
  }

  /** A read that brings nothing although bytes were asked for and ready below has met the end. */
  lemma NothingLeft(r: Reader, size: nat, chunk: nat)
    requires Valid(r) && size > 0 && Read(r, size, chunk).bytes == []
    ensures chunk > 0 ==> Remaining(Read(r, size, chunk).reader) == []
  {
  }

  // ---------- the object ----------

  /** Each read from below finds some bytes ready, so that only the end of the stream fails it. */
  ghost predicate Patient(arrivals: nat -> nat) {
    forall k: nat :: arrivals(k) > 0
  }

  /** A connection wrapped in the reader; `arrivals(k)` bytes are ready for its k-th read from below. */
  class Conn {
    const data: seq<Byte>
    const arrivals: nat -> nat
    var asked: nat
    var raw: nat
    var buf: seq<Byte>
    var bufReadIdx: nat
    var rewound: bool
    var buffering: bool
    var bufferSize: int
    ghost var mark: nat

    ghost function Abs(): Reader
      reads this
    {
      Reader(data, raw, buf, bufReadIdx, rewound, buffering, bufferSize, mark)
    }

    ghost predicate Ok()
      reads this
    {
      Valid(Abs())
    }

    constructor (data: seq<Byte>, arrivals: nat -> nat)
      ensures Ok() && Abs() == Fresh(data) && this.arrivals == arrivals
    {
      this.data, this.arrivals, asked, raw, buf, bufReadIdx := data, arrivals, 0, 0, [], 0;
      rewound, buffering, bufferSize, mark := false, false, 0, 0;
    }

    method ReadSome(size: nat) returns (bytes: seq<Byte>)
      requires Ok()
      modifies this`asked, this`raw, this`buf, this`bufReadIdx, this`rewound
      ensures Got(Abs(), bytes) == Read(old(Abs()), size, arrivals(old(asked)))
      ensures |bytes| <= size
      ensures old(rewound && bufReadIdx < |buf|) ==> |bytes| == size || bufReadIdx == |buf|
      ensures !old(rewound && bufReadIdx < |buf|) ==>
        |bytes| == size || |bytes| == arrivals(old(asked)) || raw == |data|
    {
      var chunk := arrivals(asked);
      if rewound && |buf| > bufReadIdx {
        var n := Min(size, |buf| - bufReadIdx);
        bytes, bufReadIdx := buf[bufReadIdx..bufReadIdx + n], bufReadIdx + n;
        return;
      }
      var n := Min(Min(size, chunk), |data| - raw);
      bytes := data[raw..raw + n];
      rewound, raw, asked, buf := false, raw + n, asked + 1, if buffering then buf + bytes else buf;
    }

    /** False where the source panics. */
    method RewindIt() returns (ok: bool)
      requires Ok()
      modifies this`rewound, this`bufReadIdx
      ensures Ok() && (ok <==> bufferSize != 0)
      ensures Abs() == if ok then Rewind(old(Abs())) else old(Abs())
    {
      if bufferSize == 0 {
        return false;
      }
      rewound := true;
      bufReadIdx := 0;
      ok := true;
    }

    method Stop()
      requires Ok()
      modifies this`buffering
      ensures Ok() && Abs() == StopBuffering(old(Abs()))
    {
      buffering := false;
    }

    /** False where the source panics. */
    method SetBuffer(size: int) returns (ok: bool)
      requires Ok()
      modifies this`buf, this`bufReadIdx, this`buffering, this`bufferSize, this`mark
      ensures Ok() && (ok <==> old(buffering) == (size == 0))
      ensures Abs() == if ok then SetBufferSize(old(Abs()), size) else old(Abs())
    {
      if size == 0 {
        if !buffering {
          return false;
        }
        buffering := false;
      } else {
        if buffering {
          return false;
        }
        buffering := true;
      }
      buf, bufReadIdx, bufferSize := [], 0, size;
      mark := raw;
      ok := true;
    }

    method ReadMore(size: nat) returns (bytes: seq<Byte>)
      requires Ok()
      modifies this`asked, this`raw, this`buf, this`bufReadIdx, this`rewound
      ensures TookFront(old(Abs()), Abs(), size, arrivals(old(asked)), bytes)
    {
      ReadTook(Abs(), size, arrivals(asked));
      bytes := ReadSome(size);
    }

    /**
      io.ReadFull: reads until `n` bytes are there or a read brings nothing.  On a patient
      connection it fails only when fewer bytes are left.
    */
    method ReadFull(n: nat) returns (ok: bool, bytes: seq<Byte>)
      requires Ok()
      modifies this`asked, this`raw, this`buf, this`bufReadIdx, this`rewound
      ensures Ok() && Remaining(old(Abs())) == bytes + Remaining(Abs())
      ensures mark == old(mark)
      ensures |bytes| <= n && (ok <==> |bytes| == n)
      ensures !ok && Patient(arrivals) ==> Remaining(Abs()) == []
    {
      bytes, ok := [], true;
      EmptyFront(Remaining(Abs()));
      while |bytes| < n
        invariant Ok() && ok && |bytes| <= n && Remaining(old(Abs())) == bytes + Remaining(Abs())
        decreases n - |bytes|
      {
        var more := ReadMore(n - |bytes|);
        Assoc(bytes, more, Remaining(Abs()));
        bytes := bytes + more;
        if more == [] {
          return false, bytes;
        }
      }
    }
  }
}
