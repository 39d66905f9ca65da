/**
  The router's virtual packet connection (tunnel/router/deadline.go and conn.go).

  Two producer goroutines put packets on a bounded channel.  A read call takes the pair
  (deadline, changed), then selects on a packet, the end of the connection, its own timer and
  the changed channel.  Setting the deadline closes that channel and makes a new one, so a
  blocked read looks at the deadline again.  All of these are steps that interleave freely.
*/
module RouterDeadline {
  import opened Deadlines
  import opened Numbers

  const PACKET_CHAN_SIZE := 16

  predicate Expired(d: Target, now: int) {
    d.At? && d.time <= now
  }

  /** A packet, or the error that ends a producer. */
  datatype Info = Packet(src: int, payload: seq<int>) | Failure

  datatype Producer = Receiving | Sending(info: Info) | Ended

  datatype Result = Took(index: nat) | EndOfFile | DeadlineExceeded(seen: Target, changed: nat)

  /** `since` is the changed channel that was current when the call began. */
  datatype Reader =
    | Looping(since: nat)
    | Running(since: nat)
    | Holding(since: nat, deadline: Target, changed: nat)
    | Blocked(since: nat, deadline: Target, changed: nat)
    | Returned(since: nat, result: Result)

  /**
    Changed channels are numbered in the order they are made; `deadlines[c]` is the deadline
    that was stored with channel `c`, the last of them is in force, and all others are closed.
    `arrived`, `enqueued`, `consumed` and `takers` (who consumed what) are histories.
  */
  datatype State = State(
    now: int,
    deadlines: seq<Target>,
    closed: set<nat>,
    buffer: seq<Info>,
    done: bool,
    producers: map<nat, Producer>,
    readers: map<nat, Reader>,
    arrived: seq<(nat, Info)>,
    enqueued: seq<(nat, Info)>,
    consumed: seq<Info>,
    takers: seq<nat>)

  function Changed(s: State): int {
    |s.deadlines| - 1
  }

  function Fresh(now: int): State {
    State(now, [Never], {}, [], false, map[0 := Receiving, 1 := Receiving], map[], [], [], [], [])
  }

  datatype Action =
    | Tick(n: nat)
    | Set(target: Target)
    | Cancel
    | Arrive(p: nat, info: Info)
    | Put(p: nat)
    | Quit(p: nat)
    | Begin(r: nat)
    | CheckDone(r: nat)
    | TakeState(r: nat)
    | CheckExpired(r: nat)
    | SelectPacket(r: nat)
    | SelectDone(r: nat)
    | SelectTimeout(r: nat)
    | SelectChanged(r: nat)

  /** set: store the deadline, close the changed channel, make a new one. */
  function DoSet(s: State, target: Target): State
    requires s.deadlines != []
  {
    s.(deadlines := s.deadlines + [target], closed := s.closed + {|s.deadlines| - 1})
  }

  function DoArrive(s: State, p: nat, info: Info): State {
    if p in s.producers && s.producers[p].Receiving? then
      s.(producers := s.producers[p := Sending(info)], arrived := s.arrived + [(p, info)])
    else s
  }

  /** A send blocks while the channel is full; the producer ends after an error. */
  function DoPut(s: State, p: nat): State {
    if p in s.producers && s.producers[p].Sending? && |s.buffer| < PACKET_CHAN_SIZE then
      var info := s.producers[p].info;
      s.(producers := s.producers[p := if info.Failure? then Ended else Receiving],
         buffer := s.buffer + [info],
         enqueued := s.enqueued + [(p, info)])
    else s
  }

  function DoQuit(s: State, p: nat): State {
    if p in s.producers && s.producers[p].Sending? && s.done then s.(producers := s.producers[p := Ended]) else s
  }

  function Advance(s: State, r: nat, reader: Reader): State {
    s.(readers := s.readers[r := reader])
  }

  function DoBegin(s: State, r: nat): State
    requires s.deadlines != []
  {
    if r in s.readers then s else Advance(s, r, Looping(|s.deadlines| - 1))
  }

  /** The steps of one round of the read loop, by where the call stands. */
  function DoCheckDone(s: State, r: nat): State {
    if r in s.readers && s.readers[r].Looping? then
      Advance(s, r, if s.done then Returned(s.readers[r].since, EndOfFile) else Running(s.readers[r].since))
    else s
  }

  function DoTakeState(s: State, r: nat): State
    requires s.deadlines != []
  {
    if r in s.readers && s.readers[r].Running? then
      Advance(s, r, Holding(s.readers[r].since, s.deadlines[|s.deadlines| - 1], |s.deadlines| - 1))
    else s
  }

  function DoCheckExpired(s: State, r: nat): State {
    if r in s.readers && s.readers[r].Holding? then
      var h := s.readers[r];
      Advance(s, r, if Expired(h.deadline, s.now) then Returned(h.since, DeadlineExceeded(h.deadline, h.changed))
                    else Blocked(h.since, h.deadline, h.changed))
    else s
  }

  function DoSelectPacket(s: State, r: nat): State {
    if r in s.readers && s.readers[r].Blocked? && s.buffer != [] then
      Advance(s, r, Returned(s.readers[r].since, Took(|s.consumed|)))
      .(buffer := s.buffer[1..], consumed := s.consumed + [s.buffer[0]], takers := s.takers + [r])
    else s
  }

  function DoSelectDone(s: State, r: nat): State {
    if r in s.readers && s.readers[r].Blocked? && s.done then
      Advance(s, r, Returned(s.readers[r].since, EndOfFile))
    else s
  }

  function DoSelectTimeout(s: State, r: nat): State {
    if r in s.readers && s.readers[r].Blocked? && Expired(s.readers[r].deadline, s.now) then
      var b := s.readers[r];
      Advance(s, r, Returned(b.since, DeadlineExceeded(b.deadline, b.changed)))
    else s
  }

  function DoSelectChanged(s: State, r: nat): State {
    if r in s.readers && s.readers[r].Blocked? && s.readers[r].changed in s.closed then
      Advance(s, r, Looping(s.readers[r].since))
    else s
  }

  function Do(s: State, a: Action): State
    requires s.deadlines != []
  {
    match a
    case Tick(n) => s.(now := s.now + n)
    case Set(target) => if s.done then s else DoSet(s, target)
    case Cancel => s.(done := true)
    case Arrive(p, info) => DoArrive(s, p, info)
    case Put(p) => DoPut(s, p)
    case Quit(p) => DoQuit(s, p)
    case Begin(r) => DoBegin(s, r)
    case CheckDone(r) => DoCheckDone(s, r)
    case TakeState(r) => DoTakeState(s, r)
    case CheckExpired(r) => DoCheckExpired(s, r)
    case SelectPacket(r) => DoSelectPacket(s, r)
    case SelectDone(r) => DoSelectDone(s, r)
    case SelectTimeout(r) => DoSelectTimeout(s, r)
    case SelectChanged(r) => DoSelectChanged(s, r)
  }

  function Run(s: State, actions: seq<Action>): (t: State)
    requires s.deadlines != []
    ensures t.deadlines != []
    decreases |actions|
  {
    if actions == [] then s else Run(Do(s, actions[0]), actions[1..])
  }

  // ---------- what every step keeps ----------

  /** Exactly the replaced channels are closed. */
  ghost predicate Channels(s: State) {
    s.deadlines != [] && forall c: nat :: c in s.closed <==> c < |s.deadlines| - 1
  }

  /** The infos of a tagged sequence, in order. */
  function Infos(q: seq<(nat, Info)>): seq<Info> {
    if q == [] then [] else Infos(q[..|q| - 1]) + [q[|q| - 1].1]
  }

  /** Those of producer `p`. */
  function Of(q: seq<(nat, Info)>, p: nat): seq<Info> {
    if q == [] then []
    else Of(q[..|q| - 1], p) + (if q[|q| - 1].0 == p then [q[|q| - 1].1] else [])
  }

  /** Packets leave the channel in the order they entered it, and only into `consumed`. */
  ghost predicate Queue(s: State) {
    Infos(s.enqueued) == s.consumed + s.buffer && |s.buffer| <= PACKET_CHAN_SIZE
  }

  /** What producer `p` received is on the channel, in order, up to the one it is sending. */
  ghost predicate ProducerOk(s: State, p: nat, producer: Producer) {
    match producer
    case Receiving => Of(s.arrived, p) == Of(s.enqueued, p)
    case Sending(info) => Of(s.arrived, p) == Of(s.enqueued, p) + [info]
    case Ended =>
      || Of(s.arrived, p) == Of(s.enqueued, p)
      || (s.done && Of(s.enqueued, p) < Of(s.arrived, p) && |Of(s.arrived, p)| == |Of(s.enqueued, p)| + 1)
  }

  ghost predicate Producers(s: State) {
    forall p | p in s.producers :: ProducerOk(s, p, s.producers[p])
  }

  /** The pair a reader took names a deadline stored since its call began. */
  ghost predicate Pair(s: State, since: nat, d: Target, c: nat) {
    since <= c < |s.deadlines| && s.deadlines[c] == d
  }

  ghost predicate ReaderOk(s: State, reader: Reader) {
    && reader.since < |s.deadlines|
    && match reader
       case Holding(since, d, c) => Pair(s, since, d, c)
       case Blocked(since, d, c) => Pair(s, since, d, c)
       case Returned(since, DeadlineExceeded(d, c)) => Pair(s, since, d, c) && Expired(d, s.now)
       case Returned(_, Took(k)) => k < |s.consumed|
       case Returned(_, EndOfFile) => s.done
       case _ => true
  }

  ghost predicate Readers(s: State) {
    forall r | r in s.readers :: ReaderOk(s, s.readers[r])
  }

  predicate HasTaken(readers: map<nat, Reader>, r: nat, k: nat) {
    r in readers && readers[r].Returned? && readers[r].result == Took(k)
  }

  /** Every packet taken off the channel was returned by one read. */
  ghost predicate Returns(readers: map<nat, Reader>, takers: seq<nat>) {
    && (forall k: nat | k < |takers| :: HasTaken(readers, takers[k], k))
    && (forall r: nat, k: nat | HasTaken(readers, r, k) :: k < |takers| && takers[k] == r)
  }

  ghost predicate Inv(s: State) {
    Channels(s) && Queue(s) && Producers(s) && Readers(s)
    && |s.takers| == |s.consumed| && Returns(s.readers, s.takers)
  }

  lemma Snoc(q: seq<(nat, Info)>, p: nat, info: Info, r: nat)
    ensures Infos(q + [(p, info)]) == Infos(q) + [info]
    ensures Of(q + [(p, info)], r) == if p == r then Of(q, r) + [info] else Of(q, r)
  {
    assert (q + [(p, info)])[..|q|] == q;
  }

  lemma SetKept(s: State, target: Target)
    requires Inv(s)
    ensures Inv(DoSet(s, target))
  {
    var t := DoSet(s, target);
    forall r | r in t.readers
      ensures ReaderOk(t, t.readers[r])
    {
      assert ReaderOk(s, s.readers[r]);
    }
  }

  lemma ReadersSame(s: State, t: State)
    requires Readers(s) && t.readers == s.readers && t.deadlines == s.deadlines && t.now == s.now
    requires t.consumed == s.consumed && t.done == s.done
    ensures Readers(t)
  {
    forall r | r in t.readers
      ensures ReaderOk(t, t.readers[r])
    {
      assert ReaderOk(s, s.readers[r]);
    }
  }

  lemma ArriveKept(s: State, p: nat, info: Info)
    requires Inv(s)
    ensures Inv(DoArrive(s, p, info))
  {
    ArriveProducers(s, p, info);
    ReadersSame(s, DoArrive(s, p, info));
  }

  lemma ArriveProducers(s: State, p: nat, info: Info)
    requires Producers(s)
    ensures Producers(DoArrive(s, p, info))
  {
    var t := DoArrive(s, p, info);
    forall q | q in t.producers
      ensures ProducerOk(t, q, t.producers[q])
    {
      Snoc(s.arrived, p, info, q);
      assert ProducerOk(s, q, s.producers[q]);
    }
  }

  lemma PutKept(s: State, p: nat)
    requires Inv(s)
    ensures Inv(DoPut(s, p))
  {
    var t := DoPut(s, p);
    if t != s {
      var info := s.producers[p].info;
      Snoc(s.enqueued, p, info, p);
      assert s.consumed + s.buffer + [info] == s.consumed + (s.buffer + [info]);
      forall q | q in t.producers
        ensures ProducerOk(t, q, t.producers[q])
      {
        Snoc(s.enqueued, p, info, q);
        assert ProducerOk(s, q, s.producers[q]);
      }
    }
  }

  lemma QuitKept(s: State, p: nat)
    requires Inv(s)
    ensures Inv(DoQuit(s, p))
  {
    if DoQuit(s, p) != s {
      assert ProducerOk(s, p, s.producers[p]);
    }
  }

  lemma PacketKept(s: State, r: nat)
    requires Inv(s)
    ensures Inv(DoSelectPacket(s, r))
  {
    var t := DoSelectPacket(s, r);
    if t != s {
      assert s.consumed + [s.buffer[0]] + s.buffer[1..] == s.consumed + s.buffer;
      assert HasTaken(t.readers, r, |s.consumed|);
      forall q: nat, k: nat | HasTaken(t.readers, q, k)
        ensures k < |t.takers| && t.takers[k] == q
      {
        if q != r {
          assert HasTaken(s.readers, q, k);
        }
      }
      forall k: nat | k < |t.takers|
        ensures HasTaken(t.readers, t.takers[k], k)
      {
        if k < |s.takers| {
          assert HasTaken(s.readers, s.takers[k], k);
        }
      }
    }
  }

  /** A step that moves one reader without handing it a packet. */
  lemma MoveKept(s: State, r: nat, reader: Reader)
    requires Inv(s) && (r in s.readers ==> !s.readers[r].Returned?)
    requires ReaderOk(s, reader) && (reader.Returned? ==> !reader.result.Took?)
    ensures Inv(Advance(s, r, reader))
  {
    var t := Advance(s, r, reader);
    forall q: nat, k: nat | HasTaken(t.readers, q, k)
      ensures k < |t.takers| && t.takers[k] == q
    {
      assert HasTaken(s.readers, q, k);
    }
    forall k: nat | k < |t.takers|
      ensures HasTaken(t.readers, t.takers[k], k)
    {
      assert HasTaken(s.readers, s.takers[k], k);
    }
  }

  lemma ReaderKept(s: State, a: Action)
    requires Inv(s)
    requires a.Begin? || a.CheckDone? || a.TakeState? || a.CheckExpired? || a.SelectDone? || a.SelectTimeout?
        || a.SelectChanged?
    ensures Inv(Do(s, a))
  {
    assert a.r in s.readers ==> ReaderOk(s, s.readers[a.r]);
    var t := Do(s, a);
    if t != s {
      MoveKept(s, a.r, t.readers[a.r]);
    }
  }

  lemma InvKept(s: State, a: Action)
    requires Inv(s)
    ensures Inv(Do(s, a))
  {
    match a
    case Tick(_) =>
    case Set(target) => SetKept(s, target);
    case Cancel =>
    case Arrive(p, info) => ArriveKept(s, p, info);
    case Put(p) => PutKept(s, p);
    case Quit(p) => QuitKept(s, p);
    case SelectPacket(r) => PacketKept(s, r);
    case _ => ReaderKept(s, a);
  }

  lemma {:induction false} InvOverRuns(s: State, actions: seq<Action>)
    requires Inv(s)
    ensures Inv(Run(s, actions))
    decreases |actions|
  {
    if actions != [] {
      InvKept(s, actions[0]);
      InvOverRuns(Do(s, actions[0]), actions[1..]);
    }
  }

  // ---------- the promises, in every reachable state ----------

  /** No lost wake-up: the pair a read works with is the current one, or its channel is closed. */
  lemma PairCurrentOrClosed(now: int, actions: seq<Action>, r: nat)
    requires r in Run(Fresh(now), actions).readers
    requires var reader := Run(Fresh(now), actions).readers[r]; reader.Holding? || reader.Blocked?
    ensures var s := Run(Fresh(now), actions);
      var d, c := s.readers[r].deadline, s.readers[r].changed;
      (c == Changed(s) && d == s.deadlines[Changed(s)]) || c in s.closed
  {
    InvOverRuns(Fresh(now), actions);
    assert ReaderOk(Run(Fresh(now), actions), Run(Fresh(now), actions).readers[r]);
  }

  /** So a blocked read has a ready case as soon as the deadline in force has passed, whatever it saw. */
  lemma BlockedWakes(now: int, actions: seq<Action>, r: nat)
    requires r in Run(Fresh(now), actions).readers && Run(Fresh(now), actions).readers[r].Blocked?
    requires var s := Run(Fresh(now), actions);
      s.deadlines[Changed(s)].At? && s.deadlines[Changed(s)].time <= s.now
    ensures var s := Run(Fresh(now), actions); Do(s, SelectTimeout(r)) != s || Do(s, SelectChanged(r)) != s
  {
    PairCurrentOrClosed(now, actions, r);
    var s := Run(Fresh(now), actions);
    if s.readers[r].changed in s.closed {
      assert Do(s, SelectChanged(r)).readers[r].Looping?;
    } else {
      assert Do(s, SelectTimeout(r)).readers[r].Returned?;
    }
  }

  /** A read times out only for a deadline stored with a channel made since the call began, and not before it. */
  lemma TimeoutJustified(now: int, actions: seq<Action>, r: nat)
    requires r in Run(Fresh(now), actions).readers && Run(Fresh(now), actions).readers[r].Returned?
    requires Run(Fresh(now), actions).readers[r].result.DeadlineExceeded?
    ensures var s := Run(Fresh(now), actions);
      var c := s.readers[r].result.changed;
      && s.readers[r].since <= c < |s.deadlines|
      && s.deadlines[c] == s.readers[r].result.seen && s.deadlines[c].At? && s.deadlines[c].time <= s.now
  {
    InvOverRuns(Fresh(now), actions);
    assert ReaderOk(Run(Fresh(now), actions), Run(Fresh(now), actions).readers[r]);
  }

  /**
    Across all reads, timeouts and deadline changes, what was taken off the channel is a
    prefix of what was put on it, the rest is still there, and the k-th packet is the result
    of exactly one read.
  */
  lemma ConsumedIsPrefix(now: int, actions: seq<Action>)
    ensures var s := Run(Fresh(now), actions);
      && Infos(s.enqueued) == s.consumed + s.buffer && |s.takers| == |s.consumed|
      && forall r: nat, k: nat :: HasTaken(s.readers, r, k) <==> k < |s.takers| && s.takers[k] == r
  {
    InvOverRuns(Fresh(now), actions);
  }

  /** Each producer's packets reach the channel in order; only the last may be missing, in flight or after Cancel. */
  lemma NothingLostBefore(now: int, actions: seq<Action>, p: nat)
    requires p in Run(Fresh(now), actions).producers
    ensures var s := Run(Fresh(now), actions);
      && Of(s.enqueued, p) <= Of(s.arrived, p) && |Of(s.arrived, p)| <= |Of(s.enqueued, p)| + 1
      && (Of(s.arrived, p) != Of(s.enqueued, p) ==> s.producers[p].Sending? || s.done)
  {
    InvOverRuns(Fresh(now), actions);
    assert ProducerOk(Run(Fresh(now), actions), p, Run(Fresh(now), actions).producers[p]);
  }

  /** A producer with a packet gets it onto the channel while there is room, and ends after an error or a Cancel. */
  lemma ProducerMoves(s: State, p: nat)
    requires s.deadlines != [] && p in s.producers && s.producers[p].Sending?
    ensures var info, t := s.producers[p].info, Do(s, Put(p));
      && (|s.buffer| < 16 ==> t.buffer == s.buffer + [info] && t.enqueued == s.enqueued + [(p, info)]
                              && t.producers == s.producers[p := if info.Failure? then Ended else Receiving])
      && (|s.buffer| >= 16 ==> t == s)
    ensures Do(s, Quit(p)) == if s.done then s.(producers := s.producers[p := Ended]) else s
  {
  }

  lemma PacketArrives(s: State, p: nat, info: Info)
    requires s.deadlines != [] && p in s.producers && s.producers[p].Receiving?
    ensures var t := Do(s, Arrive(p, info));
      t.producers == s.producers[p := Sending(info)] && t.arrived == s.arrived + [(p, info)]
  {
  }

  // ---------- the deadline object ----------

  class PacketDeadline {
    var deadline: Target
    var changed: nat
    var closed: set<nat>
    ghost var deadlines: seq<Target>

    ghost predicate Valid()
      reads this
    {
      && |deadlines| == changed + 1 && deadlines[changed] == deadline
      && forall c: nat :: c in closed <==> c < changed
    }

    constructor ()
      ensures Valid() && deadlines == [Never]
    {
      deadline, changed, closed, deadlines := Never, 0, {}, [Never];
    }

    method Set(t: Target)
      requires Valid()
      modifies this
      ensures Valid() && deadlines == old(deadlines) + [t]
      ensures deadline == t && old(changed) in closed && changed !in closed
      ensures forall s: State {:trigger DoSet(s, t)} :: s.deadlines == old(deadlines) && s.closed == old(closed) ==>
        DoSet(s, t).deadlines == deadlines && DoSet(s, t).closed == closed
    {
      deadline := t;
      closed := closed + {changed};
      changed := changed + 1;
      deadlines := deadlines + [t];
    }
  }

  // ---------- the read loop ----------

  /** Steps of the other goroutines. */
  predicate Foreign(a: Action, r: nat) {
    match a
    case Begin(q) => q != r
    case CheckDone(q) => q != r
    case TakeState(q) => q != r
    case CheckExpired(q) => q != r
    case SelectPacket(q) => q != r
    case SelectDone(q) => q != r
    case SelectTimeout(q) => q != r
    case SelectChanged(q) => q != r
    case _ => true
  }

  lemma {:induction false} RunAppend(s: State, a: seq<Action>, b: seq<Action>)
    requires s.deadlines != []
    ensures Run(s, a + b) == Run(Run(s, a), b)
    decreases |a|
  {
    if a == [] {
      assert a + b == b;
    } else {
      assert (a + b)[1..] == a[1..] + b;
      RunAppend(Do(s, a[0]), a[1..], b);
    }
  }

  lemma RunSnoc(s: State, a: seq<Action>, b: Action)
    requires s.deadlines != []
    ensures Run(s, a + [b]) == Do(Run(s, a), b)
  {
    RunAppend(s, a, [b]);
    assert [b][1..] == [];
  }

  lemma {:induction false} ForeignRun(s: State, r: nat, actions: seq<Action>)
    requires s.deadlines != [] && r in s.readers && forall a | a in actions :: Foreign(a, r)
    ensures r in Run(s, actions).readers && Run(s, actions).readers[r] == s.readers[r]
    decreases |actions|
  {
    if actions != [] {
      assert Foreign(actions[0], r);
      ForeignRun(Do(s, actions[0]), r, actions[1..]);
    }
  }

  datatype ReadResult = Data(n: nat, src: int, bytes: seq<int>) | Error | Eof | Timeout | StillBlocked

  /** What the caller gets for the packet it took; a payload longer than its buffer is cut. */
  function Deliver(info: Info, size: nat): ReadResult {
    match info
    case Packet(src, payload) => Data(Min(size, |payload|), src, payload[..Min(size, |payload|)])
    case Failure => Error
  }

  /** The result is the packet, cut to the size of the buffer if it is longer, or the producer's error. */
  ghost predicate CutTo(result: ReadResult, info: Info, size: nat) {
    match info
    case Failure => result == Error
    case Packet(src, payload) =>
      && result.Data? && result.src == src
      && result.n <= |payload| && result.n <= size && (result.n == |payload| || result.n == size)
      && result.bytes == payload[..result.n]
  }

  /** The result a call returns is the one its reader state records. */
  ghost predicate Reports(s: State, r: nat, size: nat, result: ReadResult) {
    && r in s.readers
    && match s.readers[r]
       case Returned(_, Took(k)) =>
         k < |s.consumed| && CutTo(result, s.consumed[k], size)
       case Returned(_, EndOfFile) => result == Eof
       case Returned(_, DeadlineExceeded(_, _)) => result == Timeout
       case _ => result == StillBlocked
  }

  /** Some case of the select of reader `r` is ready. */
  predicate Ready(s: State, r: nat)
    requires r in s.readers && s.readers[r].Blocked?
  {
    s.buffer != [] || s.done || Expired(s.readers[r].deadline, s.now) || s.readers[r].changed in s.closed
  }

  /** The first test of a round. */
  method LookDone(s: State, r: nat, size: nat) returns (t: State, result: ReadResult)
    requires s.deadlines != [] && r in s.readers && s.readers[r].Looping?
    ensures t == Do(s, CheckDone(r)) && Reports(t, r, size, result)
    ensures s.done ==> t.readers[r].Returned? && result == Eof
    ensures !s.done ==> t.readers[r].Running? && t == s.(readers := t.readers)
  {
    var since := s.readers[r].since;
    if s.done {
      return s.(readers := s.readers[r := Returned(since, EndOfFile)]), Eof;
    }
    return s.(readers := s.readers[r := Running(since)]), StillBlocked;
  }

  /** readDeadline.state() */
  method LookState(s: State, r: nat, size: nat) returns (t: State)
    requires s.deadlines != [] && r in s.readers && s.readers[r].Running?
    ensures t == Do(s, TakeState(r)) && Reports(t, r, size, StillBlocked) && t == s.(readers := t.readers)
    ensures t.readers[r] == Holding(s.readers[r].since, s.deadlines[|s.deadlines| - 1], |s.deadlines| - 1)
  {
    var deadline, changed := s.deadlines[|s.deadlines| - 1], |s.deadlines| - 1;
    t := s.(readers := s.readers[r := Holding(s.readers[r].since, deadline, changed)]);
  }

  /** A deadline that has passed ends the call before it waits. */
  method LookExpired(s: State, r: nat, size: nat) returns (t: State, result: ReadResult)
    requires s.deadlines != [] && r in s.readers && s.readers[r].Holding?
    ensures t == Do(s, CheckExpired(r)) && Reports(t, r, size, result) && t == s.(readers := t.readers)
    ensures var d := s.readers[r].deadline;
      if d.At? && d.time <= s.now then t.readers[r].Returned? && result == Timeout
      else t.readers[r] == Blocked(s.readers[r].since, d, s.readers[r].changed)
  {
    var h := s.readers[r];
    if h.deadline.At? && h.deadline.time <= s.now {
      t := s.(readers := s.readers[r := Returned(h.since, DeadlineExceeded(h.deadline, h.changed))]);
      return t, Timeout;
    }
    t := s.(readers := s.readers[r := Blocked(h.since, h.deadline, h.changed)]);
    result := StillBlocked;
  }

  /** What a select may come to. */
  ghost predicate Chosen(s: State, r: nat, size: nat, result: ReadResult)
    requires r in s.readers && s.readers[r].Blocked?
  {
    match result
    case Eof => s.done
    case Timeout => s.readers[r].deadline.At? && s.readers[r].deadline.time <= s.now
    case StillBlocked => !Ready(s, r)
    case _ => s.buffer != [] && CutTo(result, s.buffer[0], size)
  }

  /** The select statement: any ready case may be taken; with none ready the call stays blocked. */
  method Select(s: State, r: nat, size: nat) returns (t: State, result: ReadResult, again: bool, ghost a: Action)
    requires s.deadlines != [] && r in s.readers && s.readers[r].Blocked?
    ensures t == Do(s, a) && r in t.readers && a in {SelectPacket(r), SelectDone(r), SelectTimeout(r), SelectChanged(r)}
    ensures again ==> t.readers[r].Looping? && s.readers[r].changed in s.closed
    ensures !again ==> Reports(t, r, size, result)
    ensures !again ==> Chosen(s, r, size, result)
    ensures !again && result.StillBlocked? ==> t.readers[r].Blocked? && !Ready(t, r)
  {
    var b := s.readers[r];
    again, result := false, StillBlocked;
    if
    case s.buffer != [] =>
      a := SelectPacket(r);
      t := s.(readers := s.readers[r := Returned(b.since, Took(|s.consumed|))],
              buffer := s.buffer[1..], consumed := s.consumed + [s.buffer[0]], takers := s.takers + [r]);
      result := Deliver(s.buffer[0], size);
    case s.done =>
      a := SelectDone(r);
      t := s.(readers := s.readers[r := Returned(b.since, EndOfFile)]);
      result := Eof;
    case b.deadline.At? && b.deadline.time <= s.now =>
      a := SelectTimeout(r);
      t := s.(readers := s.readers[r := Returned(b.since, DeadlineExceeded(b.deadline, b.changed))]);
      result := Timeout;
    case b.changed in s.closed =>
      a := SelectChanged(r);
      t := s.(readers := s.readers[r := Looping(b.since)]);
      again := true;
    case !Ready(s, r) =>
      a := SelectTimeout(r);
      t := s;
  }

  /** What the other goroutines do during one round of the loop, step by step. */
  datatype Round = Round(
    beforeCheck: seq<Action>,
    beforeState: seq<Action>,
    beforeExpiry: seq<Action>,
    duringWait: seq<Action>)

  ghost predicate AllForeign(actions: seq<Action>, r: nat) {
    forall a | a in actions :: Foreign(a, r)
  }

  ghost predicate RoundForeign(x: Round, r: nat) {
    AllForeign(x.beforeCheck, r) && AllForeign(x.beforeState, r) && AllForeign(x.beforeExpiry, r)
        && AllForeign(x.duringWait, r)
  }

  /** Others run, and then the call takes a step of its own. */
  lemma Interleave(s: State, trace: seq<Action>, others: seq<Action>, r: nat, a: Action)
    requires s.deadlines != [] && r in Run(s, trace).readers && AllForeign(others, r)
    ensures var t := Run(Run(s, trace), others);
      && r in t.readers && t.readers[r] == Run(s, trace).readers[r]
      && Run(s, trace + others + [a]) == Do(t, a)
  {
    ForeignRun(Run(s, trace), r, others);
    RunAppend(s, trace, others);
    RunSnoc(s, trace + others, a);
  }

  /** Nobody else does anything in this round. */
  predicate Undisturbed(x: Round) {
    x.beforeCheck == [] && x.beforeState == [] && x.beforeExpiry == [] && x.duringWait == []
  }

  /** What a read must come to while nobody else moves: the end of the connection goes first, then the deadline. */
  ghost predicate Immediate(s: State, size: nat, result: ReadResult)
    requires s.deadlines != []
  {
    var d := s.deadlines[|s.deadlines| - 1];
    if s.done then result == Eof
    else if d.At? && d.time <= s.now then result == Timeout
    else if s.buffer == [] then result == StillBlocked
    else CutTo(result, s.buffer[0], size)
  }

  lemma {:induction false} DoneStays(s: State, actions: seq<Action>)
    requires s.deadlines != [] && s.done
    ensures Run(s, actions).done
    decreases |actions|
  {
    if actions != [] {
      DoneStays(Do(s, actions[0]), actions[1..]);
    }
  }

  /** The first round alone settles the read: the connection has ended, or nobody else moves. */
  ghost predicate Settled(s: State, rounds: seq<Round>)
    requires s.deadlines != []
  {
    rounds != [] && (s.done || (Undisturbed(rounds[0]) && |s.deadlines| - 1 !in s.closed))
  }

  /** One round up to its select: the call returned, or it is blocked on a pair it has just taken. */
  method EnterSelect(ghost s: State, ghost trace: seq<Action>, now: State, r: nat, size: nat, x: Round)
    returns (t: State, result: ReadResult, ghost longer: seq<Action>)
    requires s.deadlines != [] && now == Run(s, trace) && r in now.readers && now.readers[r].Looping?
    requires RoundForeign(x, r)
    ensures t == Run(s, longer) && Reports(t, r, size, result)
    ensures t.readers[r].Blocked? || t.readers[r].Returned?
    ensures
      || (longer == trace + x.beforeCheck + [CheckDone(r)] && result == Eof)
      || longer == trace + x.beforeCheck + [CheckDone(r)] + x.beforeState + [TakeState(r)]
                     + x.beforeExpiry + [CheckExpired(r)]
    ensures now.done ==> t.readers[r].Returned? && result == Eof
    ensures Undisturbed(x) && !now.done ==>
      var last := |now.deadlines| - 1;
      if now.deadlines[last].At? && now.deadlines[last].time <= now.now
      then t.readers[r].Returned? && result == Timeout
      else t == now.(readers := t.readers) && t.readers[r] == Blocked(now.readers[r].since, now.deadlines[last], last)
  {
    if now.done {
      DoneStays(now, x.beforeCheck);
    }
    Interleave(s, trace, x.beforeCheck, r, CheckDone(r));
    t, result := LookDone(Run(now, x.beforeCheck), r, size);
    longer := trace + x.beforeCheck + [CheckDone(r)];
    if t.readers[r].Returned? {
      return;
    }
    Interleave(s, longer, x.beforeState, r, TakeState(r));
    t := LookState(Run(t, x.beforeState), r, size);
    longer := longer + x.beforeState + [TakeState(r)];
    Interleave(s, longer, x.beforeExpiry, r, CheckExpired(r));
    t, result := LookExpired(Run(t, x.beforeExpiry), r, size);
    longer := longer + x.beforeExpiry + [CheckExpired(r)];
  }

  /**
    ReadWithMetadata while the other goroutines take the steps of `rounds[i]` in its i-th
    round, between any two of its own.  The whole is a run of the machine, the call returns
    what its reader state says, and it gives up only when `rounds` is used up or none of its
    cases is ready.
  */
  method ReadWithMetadata(s: State, r: nat, size: nat, rounds: seq<Round>)
    returns (t: State, result: ReadResult, used: nat, ghost trace: seq<Action>)
    requires s.deadlines != [] && r !in s.readers && forall i | 0 <= i < |rounds| :: RoundForeign(rounds[i], r)
    ensures t == Run(s, trace) && Reports(t, r, size, result)
    ensures result.StillBlocked? ==>
      (t.readers[r].Looping? && used == |rounds|) || (t.readers[r].Blocked? && !Ready(t, r))
    ensures Settled(s, rounds) ==> Immediate(s, size, result)
  {
    t, trace, result := s.(readers := s.readers[r := Looping(|s.deadlines| - 1)]), [Begin(r)], StillBlocked;
    used := |rounds|;
    RunSnoc(s, [], Begin(r));
    assert [] + trace == trace;
    for i := 0 to |rounds|
      invariant t == Run(s, trace) && r in t.readers && t.readers[r].Looping? && result == StillBlocked
      invariant if i == 0 then t == s.(readers := t.readers) else !Settled(s, rounds)
    {
      var u, again;
      ghost var a, longer;
      u, result, longer := EnterSelect(s, trace, t, r, size, rounds[i]);
      t, trace := u, longer;
      if t.readers[r].Returned? {
        return;
      }
      ForeignRun(t, r, rounds[i].duringWait);
      RunAppend(s, trace, rounds[i].duringWait);
      t, trace := Run(t, rounds[i].duringWait), trace + rounds[i].duringWait;
      u, result, again, a := Select(t, r, size);
      RunSnoc(s, trace, a);
      t, trace := u, trace + [a];
      if !again {
        return;
      }
      result := StillBlocked;
    }
  }
}
