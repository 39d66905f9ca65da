/**
  The write-coalescing connection under a mux session (tunnel/mux/conn.go).

  Bare SYN and FIN headers are held back.  The next write of any other kind sends all held
  SYN headers, then itself, then all held FIN headers, in one write to the connection below.

  Writes are taken one after another: an smux session has a single goroutine that writes to
  its connection, and the theorems here rely on that.
*/
module StickyConn {
  import opened Bytes
  import opened Seqs

  type Frame = seq<Byte>

  const QUEUE_SIZE := 128

  // An smux header: version, command, length (2 bytes), stream id (4 bytes).
  predicate IsHeader(p: Frame, command: Byte) {
    |p| == 8 && (p[0] == 1 || p[0] == 2) && p[1] == command
  }

  predicate IsSyn(p: Frame) {
    IsHeader(p, 0)
  }

  predicate IsFin(p: Frame) {
    IsHeader(p, 1)
  }

  predicate IsPayload(p: Frame) {
    !IsSyn(p) && !IsFin(p)
  }

  function Stream(p: Frame): seq<Byte> {
    if |p| >= 8 then p[4..8] else []
  }

  datatype Sticky = Sticky(syn: seq<Frame>, fin: seq<Frame>, emitted: seq<Frame>)

  /** A send on a full queue blocks. */
  predicate Accepts(s: Sticky, p: Frame) {
    (IsSyn(p) ==> |s.syn| < QUEUE_SIZE) && (IsFin(p) ==> |s.fin| < QUEUE_SIZE)
  }

  function Step(s: Sticky, p: Frame): Sticky {
    if IsSyn(p) then s.(syn := s.syn + [p])
    else if IsFin(p) then s.(fin := s.fin + [p])
    else Sticky([], [], s.emitted + s.syn + [p] + s.fin)
  }

  /** The state after the writes `w`. */
  function After(w: seq<Frame>): Sticky {
    if w == [] then Sticky([], [], []) else Step(After(w[..|w| - 1]), w[|w| - 1])
  }

  lemma AfterSnoc(w: seq<Frame>, p: Frame)
    ensures After(w + [p]) == Step(After(w), p)
  {
    assert (w + [p])[..|w|] == w;
  }

  // ---------- nothing is lost or sent twice ----------

  /** Every frame written is on the wire or in one queue, as often as it was written. */
  lemma {:induction false} NothingLost(w: seq<Frame>)
    ensures var s := After(w); multiset(w) == multiset(s.emitted) + multiset(s.syn) + multiset(s.fin)
    decreases |w|
  {
    if w != [] {
      var v, p := w[..|w| - 1], w[|w| - 1];
      assert w == v + [p];
      NothingLost(v);
      AfterSnoc(v, p);
    }
  }

  /** The wire grows only at its end. */
  lemma {:induction false} EmittedGrows(v: seq<Frame>, w: seq<Frame>)
    ensures After(v).emitted <= After(v + w).emitted
    decreases |w|
  {
    if w == [] {
      assert v + w == v;
    } else {
      var u, p := w[..|w| - 1], w[|w| - 1];
      assert v + w == (v + u) + [p];
      AfterSnoc(v + u, p);
      EmittedGrows(v, u);
    }
  }

  // ---------- when a write blocks ----------

  /** How many headers of this command were written since the last payload. */
  function HeldSince(w: seq<Frame>, command: Byte): nat {
    if w == [] || IsPayload(w[|w| - 1]) then 0
    else HeldSince(w[..|w| - 1], command) + if IsHeader(w[|w| - 1], command) then 1 else 0
  }

  lemma {:induction false} QueuesHold(w: seq<Frame>)
    ensures |After(w).syn| == HeldSince(w, 0) && |After(w).fin| == HeldSince(w, 1)
    decreases |w|
  {
    if w != [] {
      QueuesHold(w[..|w| - 1]);
    }
  }

  /** A write blocks exactly if it is a SYN or FIN and 128 of its kind were written since the last payload. */
  lemma BlocksExactly(w: seq<Frame>, p: Frame)
    ensures !Accepts(After(w), p) <==>
      (IsSyn(p) && HeldSince(w, 0) >= QUEUE_SIZE) || (IsFin(p) && HeldSince(w, 1) >= QUEUE_SIZE)
  {
    QueuesHold(w);
  }

  /** Only a payload, of whatever stream, lets it go on; without one it stays blocked. */
  lemma {:induction false} StaysBlocked(w: seq<Frame>, v: seq<Frame>, p: Frame)
    requires !Accepts(After(w), p) && forall q | q in v :: !IsPayload(q)
    ensures !Accepts(After(w + v), p)
    decreases |v|
  {
    if v == [] {
      assert w + v == w;
    } else {
      var u, q := v[..|v| - 1], v[|v| - 1];
      assert w + v == (w + u) + [q] && q in v;
      StaysBlocked(w, u, p);
      AfterSnoc(w + u, q);
    }
  }

  lemma PayloadUnblocks(w: seq<Frame>, q: Frame, p: Frame)
    requires IsPayload(q)
    ensures Accepts(After(w + [q]), p)
  {
    AfterSnoc(w, q);
  }

  // ---------- the order within a stream ----------

  /** The frames of stream `x`, in order. */
  function Of(w: seq<Frame>, x: seq<Byte>): seq<Frame> {
    if w == [] then []
    else Of(w[..|w| - 1], x) + (if Stream(w[|w| - 1]) == x then [w[|w| - 1]] else [])
  }

  lemma {:induction false} OfConcat(v: seq<Frame>, w: seq<Frame>, x: seq<Byte>)
    ensures Of(v + w, x) == Of(v, x) + Of(w, x)
    decreases |w|
  {
    if w == [] {
      assert v + w == v;
    } else {
      assert (v + w)[..|v + w| - 1] == v + w[..|w| - 1];
      OfConcat(v, w[..|w| - 1], x);
    }
  }

  lemma OfOne(p: Frame, x: seq<Byte>)
    ensures Of([p], x) == if Stream(p) == x then [p] else []
  {
    assert [p][..0] == [];
  }

  /** The order in which all frames written so far will have reached the wire. */
  function Sequence(s: Sticky): seq<Frame> {
    s.emitted + s.syn + s.fin
  }

  ghost predicate InOrder(w: seq<Frame>, x: seq<Byte>) {
    Of(Sequence(After(w)), x) == Of(w, x)
  }

  /** A FIN of `x` was written at `i` and no payload of any stream since. */
  ghost predicate FinHeld(w: seq<Frame>, x: seq<Byte>, i: nat) {
    i < |w| && IsFin(w[i]) && Stream(w[i]) == x && forall k | i < k < |w| :: !IsPayload(w[k])
  }

  /** Between a FIN of `x` and a later frame of `x` other than a FIN, some payload is written. */
  ghost predicate Orderly(w: seq<Frame>, x: seq<Byte>) {
    forall j: nat, i: nat | j < |w| && Stream(w[j]) == x && !IsFin(w[j]) :: !FinHeld(w[..j], x, i)
  }

  lemma OfThree(a: seq<Frame>, b: seq<Frame>, c: seq<Frame>, x: seq<Byte>)
    ensures Of(a + b + c, x) == Of(a, x) + Of(b, x) + Of(c, x)
  {
    OfConcat(a + b, c, x);
    OfConcat(a, b, x);
  }

  /** What a write does to the sequence of a stream: a FIN goes last, anything else before the held FINs. */
  lemma StepSequence(s: Sticky, p: Frame, x: seq<Byte>)
    ensures Of(Sequence(Step(s, p)), x)
         == Of(s.emitted, x) + Of(s.syn, x) + if IsFin(p) then Of(s.fin, x) + Of([p], x) else Of([p], x) + Of(s.fin, x)
  {
    if IsSyn(p) {
      OfThree(s.emitted, s.syn + [p], s.fin, x);
      OfConcat(s.syn, [p], x);
      AssocFour(Of(s.emitted, x), Of(s.syn, x), Of([p], x), Of(s.fin, x));
    } else if IsFin(p) {
      OfThree(s.emitted, s.syn, s.fin + [p], x);
      OfConcat(s.fin, [p], x);
    } else {
      PayloadSequence(s, p, x);
    }
  }

  lemma PayloadSequence(s: Sticky, p: Frame, x: seq<Byte>)
    requires IsPayload(p)
    ensures Of(Step(s, p).emitted, x) == Of(s.emitted, x) + Of(s.syn, x) + (Of([p], x) + Of(s.fin, x))
    ensures Sequence(Step(s, p)) == Step(s, p).emitted
  {
    OfThree(s.emitted + s.syn, [p], s.fin, x);
    OfConcat(s.emitted, s.syn, x);
    AssocFour(Of(s.emitted, x), Of(s.syn, x), Of([p], x), Of(s.fin, x));
  }

  lemma {:induction false} FinsAreFins(w: seq<Frame>, x: seq<Byte>, k: nat)
    requires forall q | q in w :: IsFin(q)
    requires k < |Of(w, x)|
    ensures IsFin(Of(w, x)[k])
    decreases |w|
  {
    if k < |Of(w[..|w| - 1], x)| {
      FinsAreFins(w[..|w| - 1], x, k);
    }
  }

  lemma {:induction false} FinQueue(w: seq<Frame>)
    ensures forall q | q in After(w).fin :: IsFin(q)
    decreases |w|
  {
    if w != [] {
      FinQueue(w[..|w| - 1]);
    }
  }

  lemma HeldSnoc(v: seq<Frame>, p: Frame, x: seq<Byte>, i: nat)
    ensures FinHeld(v + [p], x, i) <==>
      (i == |v| && IsFin(p) && Stream(p) == x) || (FinHeld(v, x, i) && !IsPayload(p))
  {
    var w := v + [p];
    assert w[|v|] == p && forall k | 0 <= k < |v| :: w[k] == v[k];
    if FinHeld(v, x, i) && !IsPayload(p) {
      assert forall k | i < k < |w| :: !IsPayload(w[k]);
    }
  }

  lemma FinStep(s: Sticky, p: Frame, x: seq<Byte>)
    ensures Of(Step(s, p).fin, x)
        == if IsFin(p) then Of(s.fin, x) + Of([p], x) else if IsSyn(p) then Of(s.fin, x) else []
  {
    OfConcat(s.fin, [p], x);
  }

  /** The FIN queue holds a FIN of `x` exactly while one is held. */
  lemma {:induction false} HeldExactly(w: seq<Frame>, x: seq<Byte>)
    ensures Of(After(w).fin, x) != [] <==> exists i: nat :: FinHeld(w, x, i)
    decreases |w|
  {
    if w != [] {
      var v, p := w[..|w| - 1], w[|w| - 1];
      assert w == v + [p];
      HeldExactly(v, x);
      FinStep(After(v), p, x);
      OfOne(p, x);
      HeldSnoc(v, p, x, |v|);
      forall i: nat
        ensures FinHeld(w, x, i) <==> (i == |v| && IsFin(p) && Stream(p) == x) || (FinHeld(v, x, i) && !IsPayload(p))
      {
        HeldSnoc(v, p, x, i);
      }
    }
  }

  /** Inserting `p` before `f` or after it gives the same only if `f` is empty or starts with `p`. */
  lemma InsertExactly<T>(before: seq<T>, p: T, f: seq<T>)
    requires f != [] ==> f[0] != p
    ensures before + ([p] + f) == before + f + [p] <==> f == []
  {
    if f != [] {
      assert (before + ([p] + f))[|before|] == p;
      assert (before + f + [p])[|before|] == f[0];
    }
  }

  lemma StepInOrder(w: seq<Frame>, p: Frame, x: seq<Byte>)
    ensures var s := After(w);
      var before, f := Of(s.emitted, x) + Of(s.syn, x), Of(s.fin, x);
      && (InOrder(w, x) <==> before + f == Of(w, x))
      && (InOrder(w + [p], x) <==>
            before + (if IsFin(p) then f + Of([p], x) else Of([p], x) + f) == Of(w, x) + Of([p], x))
  {
    var s := After(w);
    AfterSnoc(w, p);
    OfConcat(w, [p], x);
    OfThree(s.emitted, s.syn, s.fin, x);
    StepSequence(s, p, x);
  }

  /** One more write keeps the order exactly if it is not a frame that overtakes a held FIN of its stream. */
  lemma OrderStep(w: seq<Frame>, p: Frame, x: seq<Byte>)
    requires InOrder(w, x)
    ensures InOrder(w + [p], x) <==> !(Stream(p) == x && !IsFin(p) && Of(After(w).fin, x) != [])
  {
    var s := After(w);
    StepInOrder(w, p, x);
    OfOne(p, x);
    if Of(s.fin, x) != [] {
      FinQueue(w);
      FinsAreFins(s.fin, x, 0);
    }
    InsertCases(Of(s.emitted, x) + Of(s.syn, x), Of(s.fin, x), p);
  }

  lemma InsertCases<T>(before: seq<T>, f: seq<T>, p: T)
    ensures before + (f + []) == before + f + [] && before + ([] + f) == before + f + []
    ensures before + (f + [p]) == before + f + [p]
    ensures (f != [] ==> f[0] != p) ==> (before + ([p] + f) == before + f + [p] <==> f == [])
  {
    if f == [] || f[0] != p {
      InsertExactly(before, p, f);
    }
  }

  lemma OrderlySnoc(v: seq<Frame>, p: Frame, x: seq<Byte>)
    ensures Orderly(v + [p], x) <==>
      Orderly(v, x) && (Stream(p) == x && !IsFin(p) ==> forall i: nat :: !FinHeld(v, x, i))
  {
    var w := v + [p];
    assert w[..|v|] == v;
    assert forall j: nat | j < |v| :: w[..j] == v[..j] && w[j] == v[j];
  }

  ghost predicate AlwaysInOrder(w: seq<Frame>, x: seq<Byte>)
    decreases |w|
  {
    InOrder(w, x) && (w != [] ==> AlwaysInOrder(w[..|w| - 1], x))
  }

  lemma {:induction false} AtEveryPoint(w: seq<Frame>, x: seq<Byte>, n: nat)
    requires AlwaysInOrder(w, x) && n <= |w|
    ensures InOrder(w[..n], x)
    decreases |w|
  {
    if n == |w| {
      assert w[..n] == w;
    } else {
      assert w[..n] == w[..|w| - 1][..n];
      AtEveryPoint(w[..|w| - 1], x, n);
    }
  }

  /**
    The frames of stream `x` keep the order in which they were written, at every point,
    exactly if no frame of `x` other than a FIN follows a FIN of `x` without a payload between.
  */
  lemma {:induction false} OrderExactly(w: seq<Frame>, x: seq<Byte>)
    ensures AlwaysInOrder(w, x) <==> Orderly(w, x)
    decreases |w|
  {
    if w != [] {
      var v, p := w[..|w| - 1], w[|w| - 1];
      assert w == v + [p];
      OrderExactly(v, x);
      OrderlySnoc(v, p, x);
      HeldExactly(v, x);
      if InOrder(v, x) {
        OrderStep(v, p, x);
      }
    }
  }

  /** One SYN, then data, then at most one FIN: a stream that ends with its FIN. */
  ghost predicate EndsWithFin(w: seq<Frame>, x: seq<Byte>) {
    forall i, j | 0 <= i < j < |w| && Stream(w[i]) == x && Stream(w[j]) == x :: !IsFin(w[i])
  }

  /** Then what is on the wire for the stream is, at every point, a prefix of what it wrote. */
  lemma PrefixOnWire(w: seq<Frame>, x: seq<Byte>, n: nat)
    requires EndsWithFin(w, x) && n <= |w|
    ensures Of(After(w[..n]).emitted, x) <= Of(w[..n], x)
  {
    OrderExactly(w, x);
    AtEveryPoint(w, x, n);
    var s := After(w[..n]);
    OfThree(s.emitted, s.syn, s.fin, x);
  }

  /** Otherwise the next payload puts the frames on the wire in the wrong order. */
  lemma WrongOrderShows(w: seq<Frame>, x: seq<Byte>, p: Frame)
    requires !InOrder(w, x) && IsPayload(p) && Stream(p) != x
    ensures !(Of(After(w + [p]).emitted, x) <= Of(w + [p], x))
  {
    AfterSnoc(w, p);
    var s := After(w);
    PayloadSequence(s, p, x);
    OfThree(s.emitted, s.syn, s.fin, x);
    OfConcat(w, [p], x);
    OfOne(p, x);
    SameLength(w, x);
    assert [] + Of(s.fin, x) == Of(s.fin, x) && Of(w, x) + [] == Of(w, x);
  }

  lemma {:induction false} SameLength(w: seq<Frame>, x: seq<Byte>)
    ensures |Of(Sequence(After(w)), x)| == |Of(w, x)|
    decreases |w|
  {
    if w != [] {
      var v, p := w[..|w| - 1], w[|w| - 1];
      SameLength(v, x);
      StepSequence(After(v), p, x);
      OfThree(After(v).emitted, After(v).syn, After(v).fin, x);
      OfOne(p, x);
    }
  }

  // ---------- the object ----------

  lemma SendAll(a: seq<Frame>, b: seq<Frame>, c: seq<Frame>, d: seq<Frame>)
    ensures Flatten(a + b + c + d) == Flatten(a) + Flatten(b + c + d)
  {
    assert a + b + c + d == a + (b + c + d);
    FlattenConcat(a, b + c + d);
  }

  /** Drains a queue into the buffer. */
  method Drain(queue: seq<Frame>, buf: seq<Byte>) returns (out: seq<Byte>)
    ensures out == buf + Flatten(queue)
  {
    out := buf;
    var rest, taken := queue, 0;
    while rest != []
      invariant taken <= |queue| && rest == queue[taken..]
      invariant out == buf + Flatten(queue[..taken])
      decreases |rest|
    {
      var header := rest[0];
      rest := rest[1..];
      out := out + header;
      assert queue[..taken + 1][..taken] == queue[..taken];
      taken := taken + 1;
    }
    assert queue[..taken] == queue;
  }

  lemma AllInOrder(wire: seq<Byte>, syn: seq<Frame>, p: Frame, fin: seq<Frame>)
    ensures wire + Flatten(syn + [p] + fin) == wire + Flatten(syn) + p + Flatten(fin)
  {
    FlattenConcat(syn + [p], fin);
    FlattenSnoc(syn, p);
    AssocFour(wire, Flatten(syn), p, Flatten(fin));
    Assoc(wire, Flatten(syn) + p, Flatten(fin));
  }

  class Conn {
    var synQueue: seq<Frame>
    var finQueue: seq<Frame>
    var wire: seq<Byte>
    ghost var written: seq<Frame>
    ghost var emitted: seq<Frame>

    ghost predicate Valid()
      reads this
    {
      && After(written) == Sticky(synQueue, finQueue, emitted)
      && wire == Flatten(emitted)
      && |synQueue| <= QUEUE_SIZE && |finQueue| <= QUEUE_SIZE
    }

    constructor ()
      ensures Valid() && written == []
    {
      synQueue, finQueue, wire, written, emitted := [], [], [], [], [];
    }

    method StickToPayload(p: Frame) returns (buf: seq<Byte>)
      modifies this`synQueue, this`finQueue
      ensures buf == Flatten(old(synQueue) + [p] + old(finQueue))
      ensures synQueue == [] && finQueue == []
    {
      FlattenConcat(synQueue, [p]);
      FlattenConcat(synQueue + [p], finQueue);
      buf := Drain(synQueue, []);
      synQueue := [];
      buf := buf + p;
      buf := Drain(finQueue, buf);
      finQueue := [];
      assert Flatten([p]) == p by { assert [p][..0] == []; }
    }

    /** Returns the number of bytes taken, or that the call would block on a full queue. */
    method Write(p: Frame) returns (blocks: bool, n: nat)
      requires Valid()
      modifies this
      ensures Valid()
      ensures blocks <==> !Accepts(old(After(written)), p)
      ensures written == if blocks then old(written) else old(written) + [p]
      ensures !blocks ==> n == |p|
      ensures old(wire) <= wire
      ensures |p| == 8 && 1 <= p[0] <= 2 && p[1] == 0 ==>
        && wire == old(wire) && finQueue == old(finQueue) && (blocks <==> |old(synQueue)| >= 128)
        && synQueue == if blocks then old(synQueue) else old(synQueue) + [p]
      ensures |p| == 8 && 1 <= p[0] <= 2 && p[1] == 1 ==>
        && wire == old(wire) && synQueue == old(synQueue) && (blocks <==> |old(finQueue)| >= 128)
        && finQueue == if blocks then old(finQueue) else old(finQueue) + [p]
      ensures !(|p| == 8 && 1 <= p[0] <= 2 && p[1] <= 1) ==>
        && !blocks && synQueue == [] && finQueue == []
        && wire == old(wire) + Flatten(old(synQueue)) + p + Flatten(old(finQueue))
    {
      AllInOrder(wire, synQueue, p, finQueue);
      blocks, n := false, |p|;
      AfterSnoc(written, p);
      if |p| == 8 {
        if p[0] == 1 || p[0] == 2 {
          if p[1] == 0 {
            if |synQueue| == QUEUE_SIZE {
              return true, 0;
            }
            synQueue := synQueue + [p];
            written := written + [p];
            return false, 8;
          } else if p[1] == 1 {
            if |finQueue| == QUEUE_SIZE {
              return true, 0;
            }
            finQueue := finQueue + [p];
            written := written + [p];
            return false, 8;
          }
        }
      }
      SendAll(emitted, synQueue, [p], finQueue);
      emitted := emitted + synQueue + [p] + finQueue;
      written := written + [p];
      var buf := StickToPayload(p);
      wire := wire + buf;
    }
  }
}
