/**
  The virtual socks packet connection as a user of its two deadlines (tunnel/socks/conn.go).

  A connection has two sides, each with a queue and a deadline: reads take packets off the
  input queue, writes put packets on the output queue, and the server does the opposite.  A
  call asks for the deadline's channel once to see whether it is closed and once more to wait
  on it; anything may happen between any two of its steps.
*/
module SocksConn {
  import opened Deadlines
  import opened Numbers
  import D = SocksDeadline

  const QUEUE_SIZE := 128

  datatype Packet = Packet(metadata: int, payload: seq<int>)

  // A read has a buffer of some size, a write a packet.
  datatype Kind = Read(size: nat) | Write(packet: Packet)

  datatype Result = Took(index: nat) | Queued(index: nat) | Closed | TimedOut(chan: nat)

  datatype Phase = Started | Alive | Seen(chan: nat) | Fine | Selecting(chan: nat) | Returned(result: Result)

  datatype Call = Call(kind: Kind, phase: Phase)

  // Who puts a packet on the queue or takes it off.
  datatype Party = Server | ByCall(c: nat)

  /**
    `entered` and `left` are all packets that ever came onto the queue and went off it;
    `putters` and `takers` say through whom.
  */
  datatype Side = Side(
    deadline: D.State,
    queue: seq<Packet>,
    done: bool,
    calls: map<nat, Call>,
    entered: seq<Packet>,
    left: seq<Packet>,
    putters: seq<Party>,
    takers: seq<Party>)

  function Fresh(now: int): Side {
    Side(D.Fresh(now), [], false, map[], [], [], [], [])
  }

  datatype Action =
    | Deadline(action: D.Action)
    | Cancel
    | ServerPuts(packet: Packet)
    | ServerTakes
    | Begin(c: nat, kind: Kind)
    | CheckDone(c: nat)
    | FirstWait(c: nat)
    | CheckClosed(c: nat)
    | SecondWait(c: nat)
    | SelectQueue(c: nat)
    | SelectDone(c: nat)
    | SelectClosed(c: nat)

  function Advance(s: Side, c: nat, phase: Phase): Side
    requires c in s.calls
  {
    s.(calls := s.calls[c := s.calls[c].(phase := phase)])
  }

  predicate AtPhase(s: Side, c: nat, phase: Phase) {
    c in s.calls && s.calls[c].phase == phase
  }

  function Enter(s: Side, p: Packet, who: Party): Side {
    s.(queue := s.queue + [p], entered := s.entered + [p], putters := s.putters + [who])
  }

  function Leave(s: Side, who: Party): Side
    requires s.queue != []
  {
    s.(queue := s.queue[1..], left := s.left + [s.queue[0]], takers := s.takers + [who])
  }

  /** wait blocks while a set call holds the mutex. */
  function DoWait(s: Side, c: nat, first: bool): Side
    requires c in s.calls
  {
    if s.deadline.caller.Idle? then
      var chan := s.deadline.cancel;
      Advance(s, c, if first then Seen(chan) else Selecting(chan)).(deadline := D.Do(s.deadline, D.Wait))
    else s
  }

  /** The queue case of the select: a read needs a packet, a write needs room. */
  function DoSelectQueue(s: Side, c: nat): Side {
    if c !in s.calls || !s.calls[c].phase.Selecting? then s
    else
      match s.calls[c].kind
      case Read(_) =>
        if s.queue == [] then s else Advance(Leave(s, ByCall(c)), c, Returned(Took(|s.left|)))
      case Write(p) =>
        if |s.queue| >= QUEUE_SIZE then s else Advance(Enter(s, p, ByCall(c)), c, Returned(Queued(|s.entered|)))
  }

  function DoCheckClosed(s: Side, c: nat): Side {
    if c in s.calls && s.calls[c].phase.Seen? then
      var chan := s.calls[c].phase.chan;
      Advance(s, c, if chan in s.deadline.closed then Returned(TimedOut(chan)) else Fine)
    else s
  }

  function DoSelectClosed(s: Side, c: nat): Side {
    if c in s.calls && s.calls[c].phase.Selecting? && s.calls[c].phase.chan in s.deadline.closed then
      Advance(s, c, Returned(TimedOut(s.calls[c].phase.chan)))
    else s
  }

  function DoCheckDone(s: Side, c: nat): Side {
    if AtPhase(s, c, Started) then Advance(s, c, if s.done then Returned(Closed) else Alive) else s
  }

  function DoSelectDone(s: Side, c: nat): Side {
    if c in s.calls && s.calls[c].phase.Selecting? && s.done then Advance(s, c, Returned(Closed)) else s
  }

  function Do(s: Side, a: Action): Side {
    match a
    case Deadline(d) => s.(deadline := D.Do(s.deadline, d))
    case Cancel => s.(done := true)
    case ServerPuts(p) => if |s.queue| < QUEUE_SIZE then Enter(s, p, Server) else s
    case ServerTakes => if s.queue != [] then Leave(s, Server) else s
    case Begin(c, kind) => if c in s.calls then s else s.(calls := s.calls[c := Call(kind, Started)])
    case CheckDone(c) => DoCheckDone(s, c)
    case FirstWait(c) => if AtPhase(s, c, Alive) then DoWait(s, c, true) else s
    case CheckClosed(c) => DoCheckClosed(s, c)
    case SecondWait(c) => if AtPhase(s, c, Fine) then DoWait(s, c, false) else s
    case SelectQueue(c) => DoSelectQueue(s, c)
    case SelectDone(c) => DoSelectDone(s, c)
    case SelectClosed(c) => DoSelectClosed(s, c)
  }

  function Run(s: Side, actions: seq<Action>): Side
    decreases |actions|
  {
    if actions == [] then s else Run(Do(s, actions[0]), actions[1..])
  }

  // ---------- what every step keeps ----------

  ghost predicate CallOk(s: Side, call: Call) {
    match call.phase
    case Seen(chan) => chan in s.deadline.handed
    case Selecting(chan) => chan in s.deadline.handed
    case Returned(TimedOut(chan)) => chan in s.deadline.closed
    case Returned(Closed) => s.done
    case Returned(Took(k)) => call.kind.Read? && k < |s.left|
    case Returned(Queued(k)) => call.kind.Write? && k < |s.entered| && s.entered[k] == call.kind.packet
    case _ => true
  }

  ghost predicate Queue(s: Side) {
    && s.entered == s.left + s.queue && |s.queue| <= QUEUE_SIZE
    && |s.takers| == |s.left| && |s.putters| == |s.entered|
  }

  predicate Got(calls: map<nat, Call>, c: nat, result: Result) {
    c in calls && calls[c].phase == Returned(result)
  }

  predicate ByIt(parties: seq<Party>, k: nat, c: nat) {
    k < |parties| && parties[k] == ByCall(c)
  }

  /** A read returned a packet if and only if it took that packet off the queue. */
  ghost predicate ReadsMatch(calls: map<nat, Call>, takers: seq<Party>) {
    forall c: nat, k: nat :: Got(calls, c, Took(k)) <==> ByIt(takers, k, c)
  }

  /** A write succeeded at a place if and only if it put its packet there. */
  ghost predicate WritesMatch(calls: map<nat, Call>, putters: seq<Party>) {
    forall c: nat, k: nat :: Got(calls, c, Queued(k)) <==> ByIt(putters, k, c)
  }

  ghost predicate Calls(s: Side) {
    forall c | c in s.calls :: CallOk(s, s.calls[c])
  }

  ghost predicate Inv(s: Side) {
    && D.Inv(s.deadline) && Queue(s) && Calls(s)
    && ReadsMatch(s.calls, s.takers) && WritesMatch(s.calls, s.putters)
  }

  /** What has been handed out, closed, ended or queued stays so. */
  ghost predicate Grows(s: Side, t: Side) {
    && s.deadline.handed <= t.deadline.handed && s.deadline.closed <= t.deadline.closed
    && (s.done ==> t.done) && |s.left| <= |t.left| && s.entered <= t.entered
  }

  lemma CallGrows(s: Side, t: Side, call: Call)
    requires CallOk(s, call) && Grows(s, t)
    ensures CallOk(t, call)
  {
  }

  lemma DeadlineGrows(d: D.State, a: D.Action)
    ensures d.handed <= D.Do(d, a).handed && d.closed <= D.Do(d, a).closed
  {
  }

  lemma AllGrow(s: Side, t: Side)
    requires Calls(s) && Grows(s, t) && t.calls == s.calls
    ensures Calls(t)
  {
    forall c | c in t.calls
      ensures CallOk(t, t.calls[c])
    {
      CallGrows(s, t, s.calls[c]);
    }
  }

  /** The takers after a call has come to this phase. */
  function TakersAfter(takers: seq<Party>, c: nat, phase: Phase): seq<Party> {
    if phase.Returned? && phase.result.Took? then takers + [ByCall(c)] else takers
  }

  function PuttersAfter(putters: seq<Party>, c: nat, phase: Phase): seq<Party> {
    if phase.Returned? && phase.result.Queued? then putters + [ByCall(c)] else putters
  }

  lemma ReadsMove(calls: map<nat, Call>, takers: seq<Party>, c: nat, call: Call)
    requires ReadsMatch(calls, takers) && (c in calls ==> !calls[c].phase.Returned?)
    requires call.phase.Returned? && call.phase.result.Took? ==> call.phase.result.index == |takers|
    ensures ReadsMatch(calls[c := call], TakersAfter(takers, c, call.phase))
  {
    var now, after := calls[c := call], TakersAfter(takers, c, call.phase);
    forall b: nat, k: nat
      ensures Got(now, b, Took(k)) <==> ByIt(after, k, b)
    {
      assert Got(calls, b, Took(k)) <==> ByIt(takers, k, b);
    }
  }

  lemma WritesMove(calls: map<nat, Call>, putters: seq<Party>, c: nat, call: Call)
    requires WritesMatch(calls, putters) && (c in calls ==> !calls[c].phase.Returned?)
    requires call.phase.Returned? && call.phase.result.Queued? ==> call.phase.result.index == |putters|
    ensures WritesMatch(calls[c := call], PuttersAfter(putters, c, call.phase))
  {
    var now, after := calls[c := call], PuttersAfter(putters, c, call.phase);
    forall b: nat, k: nat
      ensures Got(now, b, Queued(k)) <==> ByIt(after, k, b)
    {
      assert Got(calls, b, Queued(k)) <==> ByIt(putters, k, b);
    }
  }

  /** One call moves; it had not returned. */
  lemma MoveKept(s: Side, t: Side, c: nat, call: Call)
    requires Inv(s) && Grows(s, t) && D.Inv(t.deadline) && Queue(t) && t.calls == s.calls[c := call]
    requires (c in s.calls ==> !s.calls[c].phase.Returned?) && CallOk(t, call)
    requires t.takers == TakersAfter(s.takers, c, call.phase) && t.putters == PuttersAfter(s.putters, c, call.phase)
    requires call.phase.Returned? && call.phase.result.Took? ==> call.phase.result.index == |s.takers|
    requires call.phase.Returned? && call.phase.result.Queued? ==> call.phase.result.index == |s.putters|
    ensures Inv(t)
  {
    forall d | d in t.calls
      ensures CallOk(t, t.calls[d])
    {
      if d != c {
        CallGrows(s, t, s.calls[d]);
      }
    }
    ReadsMove(s.calls, s.takers, c, call);
    WritesMove(s.calls, s.putters, c, call);
  }

  /** The server takes or puts a packet. */
  lemma ServerMatches(calls: map<nat, Call>, takers: seq<Party>, putters: seq<Party>)
    requires ReadsMatch(calls, takers) && WritesMatch(calls, putters)
    ensures ReadsMatch(calls, takers + [Server]) && WritesMatch(calls, putters + [Server])
  {
    forall c: nat, k: nat
      ensures Got(calls, c, Took(k)) <==> ByIt(takers + [Server], k, c)
      ensures Got(calls, c, Queued(k)) <==> ByIt(putters + [Server], k, c)
    {
      assert Got(calls, c, Took(k)) <==> ByIt(takers, k, c);
      assert Got(calls, c, Queued(k)) <==> ByIt(putters, k, c);
    }
  }

  lemma WorldKept(s: Side, a: Action)
    requires Inv(s) && (a.Deadline? || a.Cancel? || a.ServerPuts? || a.ServerTakes?)
    ensures Inv(Do(s, a))
  {
    match a {
      case Deadline(d) =>
        D.InvKept(s.deadline, d);
        DeadlineGrows(s.deadline, d);
      case ServerPuts(p) =>
        ServerMatches(s.calls, s.takers, s.putters);
        assert s.left + s.queue + [p] == s.left + (s.queue + [p]);
      case ServerTakes =>
        ServerMatches(s.calls, s.takers, s.putters);
        if s.queue != [] {
          assert s.left + [s.queue[0]] + s.queue[1..] == s.left + s.queue;
        }
      case _ =>
    }
    AllGrow(s, Do(s, a));
  }

  lemma WaitKept(s: Side, c: nat, first: bool)
    requires Inv(s) && c in s.calls && !s.calls[c].phase.Returned?
    ensures Inv(DoWait(s, c, first))
  {
    var t := DoWait(s, c, first);
    if s.deadline.caller.Idle? {
      D.InvKept(s.deadline, D.Wait);
      MoveKept(s, t, c, t.calls[c]);
    }
  }

  lemma QueueKept(s: Side, c: nat)
    requires Inv(s)
    ensures Inv(DoSelectQueue(s, c))
  {
    var t := DoSelectQueue(s, c);
    if t != s {
      if s.calls[c].kind.Read? {
        assert s.left + [s.queue[0]] + s.queue[1..] == s.left + s.queue;
      } else {
        assert s.left + s.queue + [s.calls[c].kind.packet] == s.left + (s.queue + [s.calls[c].kind.packet]);
      }
      MoveKept(s, t, c, t.calls[c]);
    }
  }

  lemma CallKept(s: Side, a: Action)
    requires Inv(s) && (a.Begin? || a.CheckDone? || a.CheckClosed? || a.SelectDone? || a.SelectClosed?)
    ensures Inv(Do(s, a))
  {
    var t := Do(s, a);
    if t != s {
      assert a.c in s.calls ==> CallOk(s, s.calls[a.c]);
      MoveKept(s, t, a.c, t.calls[a.c]);
    }
  }

  lemma InvKept(s: Side, a: Action)
    requires Inv(s)
    ensures Inv(Do(s, a))
  {
    match a
    case FirstWait(c) =>
      if AtPhase(s, c, Alive) {
        WaitKept(s, c, true);
      }
    case SecondWait(c) =>
      if AtPhase(s, c, Fine) {
        WaitKept(s, c, false);
      }
    case SelectQueue(c) => QueueKept(s, c);
    case Deadline(_) => WorldKept(s, a);
    case Cancel => WorldKept(s, a);
    case ServerPuts(_) => WorldKept(s, a);
    case ServerTakes => WorldKept(s, a);
    case _ => CallKept(s, a);
  }

  lemma {:induction false} InvOverRuns(s: Side, actions: seq<Action>)
    requires Inv(s)
    ensures Inv(Run(s, actions))
    decreases |actions|
  {
    if actions != [] {
      InvKept(s, actions[0]);
      InvOverRuns(Do(s, actions[0]), actions[1..]);
    }
  }

  // ---------- the promises, in every reachable state ----------

  /** A call times out only on a closed channel, closed for a deadline that has passed. */
  lemma TimeoutJustified(now: int, actions: seq<Action>, c: nat, chan: nat)
    requires Got(Run(Fresh(now), actions).calls, c, TimedOut(chan))
    ensures var d := Run(Fresh(now), actions).deadline;
      chan in d.closed && chan in d.reasons && d.reasons[chan] <= d.now
  {
    InvOverRuns(Fresh(now), actions);
    var s := Run(Fresh(now), actions);
    assert CallOk(s, s.calls[c]);
  }

  /** A call that waits has a ready case as soon as the current channel is closed, whichever channel it holds. */
  lemma WaitingWakes(now: int, actions: seq<Action>, c: nat)
    requires var s := Run(Fresh(now), actions);
      c in s.calls && s.calls[c].phase.Selecting? && s.deadline.cancel in s.deadline.closed
    ensures var s := Run(Fresh(now), actions); Do(s, SelectClosed(c)) != s
  {
    InvOverRuns(Fresh(now), actions);
    var s := Run(Fresh(now), actions);
    assert CallOk(s, s.calls[c]);
    assert Do(s, SelectClosed(c)).calls[c].phase.Returned?;
  }

  /**
    Over all reads, writes, timeouts and deadline changes: what went off the queue is a prefix
    of what came onto it and the rest is still there.  Each packet that went off was taken by
    the server or is the result of exactly one read; each that came on was put by the server
    or by exactly one write, and is that write's packet.
  */
  lemma NoPacketLost(now: int, actions: seq<Action>)
    ensures var s := Run(Fresh(now), actions);
      && s.entered == s.left + s.queue && |s.queue| <= QUEUE_SIZE
      && |s.takers| == |s.left| && |s.putters| == |s.entered|
      && (forall c: nat, k: nat :: Got(s.calls, c, Took(k)) <==> ByIt(s.takers, k, c))
      && (forall c: nat, k: nat :: Got(s.calls, c, Queued(k)) <==> ByIt(s.putters, k, c))
      && (forall c: nat, k: nat | Got(s.calls, c, Queued(k)) ::
            k < |s.entered| && s.calls[c].kind == Write(s.entered[k]))
  {
    InvOverRuns(Fresh(now), actions);
    var s := Run(Fresh(now), actions);
    forall c: nat, k: nat | Got(s.calls, c, Queued(k))
      ensures k < |s.entered| && s.calls[c].kind == Write(s.entered[k])
    {
      assert CallOk(s, s.calls[c]);
    }
  }

  /** Only calls take packets off the queue: the side on which the server puts them. */
  ghost predicate InputSide(actions: seq<Action>) {
    forall a | a in actions :: !a.ServerTakes?
  }

  /** Only calls put packets on the queue: the side on which the server takes them. */
  ghost predicate OutputSide(actions: seq<Action>) {
    forall a | a in actions :: !a.ServerPuts?
  }

  ghost predicate AllByCalls(parties: seq<Party>) {
    forall k | 0 <= k < |parties| :: parties[k].ByCall?
  }

  lemma {:induction false} OnlyReads(s: Side, actions: seq<Action>)
    requires AllByCalls(s.takers) && InputSide(actions)
    ensures AllByCalls(Run(s, actions).takers)
    decreases |actions|
  {
    if actions != [] {
      assert actions[0] in actions;
      OnlyReads(Do(s, actions[0]), actions[1..]);
    }
  }

  lemma {:induction false} OnlyWrites(s: Side, actions: seq<Action>)
    requires AllByCalls(s.putters) && OutputSide(actions)
    ensures AllByCalls(Run(s, actions).putters)
    decreases |actions|
  {
    if actions != [] {
      assert actions[0] in actions;
      OnlyWrites(Do(s, actions[0]), actions[1..]);
    }
  }

  /** Of every packet that went off the input queue there is exactly one read that returned it. */
  lemma ReadOnce(now: int, actions: seq<Action>, k: nat)
    requires InputSide(actions) && k < |Run(Fresh(now), actions).left|
    ensures var s := Run(Fresh(now), actions);
      && |s.takers| == |s.left| && s.takers[k].ByCall?
      && forall c: nat :: Got(s.calls, c, Took(k)) <==> c == s.takers[k].c
  {
    NoPacketLost(now, actions);
    OnlyReads(Fresh(now), actions);
    var s := Run(Fresh(now), actions);
    forall c: nat
      ensures Got(s.calls, c, Took(k)) <==> c == s.takers[k].c
    {
      assert Got(s.calls, c, Took(k)) <==> ByIt(s.takers, k, c);
    }
  }

  /** Of every packet that came onto the output queue there is exactly one write that put it there. */
  lemma WrittenOnce(now: int, actions: seq<Action>, k: nat)
    requires OutputSide(actions) && k < |Run(Fresh(now), actions).entered|
    ensures var s := Run(Fresh(now), actions);
      && |s.putters| == |s.entered| && s.putters[k].ByCall?
      && forall c: nat :: Got(s.calls, c, Queued(k)) <==> c == s.putters[k].c
  {
    NoPacketLost(now, actions);
    OnlyWrites(Fresh(now), actions);
    var s := Run(Fresh(now), actions);
    forall c: nat
      ensures Got(s.calls, c, Queued(k)) <==> c == s.putters[k].c
    {
      assert Got(s.calls, c, Queued(k)) <==> ByIt(s.putters, k, c);
    }
  }

  /** The server gets a packet onto the queue as long as fewer than 128 are there, and takes the oldest one off. */
  lemma ServerMoves(s: Side, p: Packet)
    ensures |s.queue| < 128 ==> Do(s, ServerPuts(p)).queue == s.queue + [p]
    ensures |s.queue| >= 128 ==> Do(s, ServerPuts(p)) == s
    ensures s.queue != [] ==>
      Do(s, ServerTakes).queue == s.queue[1..] && Do(s, ServerTakes).left == s.left + [s.queue[0]]
  {
  }

  // ---------- the calls themselves ----------

  datatype Reply =
    | Data(n: nat, metadata: int, bytes: seq<int>)
    | Written(n: nat)
    | ConnClosed
    | DeadlineExceeded
    | Blocks

  /** The reply is the packet, cut to the size of the buffer if it is longer. */
  ghost predicate CutTo(reply: Reply, p: Packet, size: nat) {
    && reply.Data? && reply.metadata == p.metadata
    && reply.n <= |p.payload| && reply.n <= size && (reply.n == |p.payload| || reply.n == size)
    && reply.bytes == p.payload[..reply.n]
  }

  /** The reply is what the phase of the call says. */
  ghost predicate Reports(s: Side, c: nat, reply: Reply) {
    && c in s.calls
    && match s.calls[c].phase
       case Returned(Took(k)) =>
         s.calls[c].kind.Read? && k < |s.left| && CutTo(reply, s.left[k], s.calls[c].kind.size)
       case Returned(Queued(_)) => s.calls[c].kind.Write? && reply == Written(|s.calls[c].kind.packet.payload|)
       case Returned(Closed) => reply == ConnClosed
       case Returned(TimedOut(_)) => reply == DeadlineExceeded
       case _ => reply == Blocks
  }

  /** A payload longer than the buffer is cut. */
  function Delivered(p: Packet, size: nat): Reply {
    var n := Min(size, |p.payload|);
    Data(n, p.metadata, p.payload[..n])
  }

  predicate Ready(s: Side, c: nat)
    requires c in s.calls && s.calls[c].phase.Selecting?
  {
    || s.done || s.calls[c].phase.chan in s.deadline.closed
    || (if s.calls[c].kind.Read? then s.queue != [] else |s.queue| < QUEUE_SIZE)
  }

  /** Any ready case may be taken; with none ready the call stays blocked. */
  method Select(s: Side, c: nat) returns (t: Side, reply: Reply, ghost a: Action)
    requires c in s.calls && s.calls[c].phase.Selecting?
    ensures t == Do(s, a) && a in {SelectQueue(c), SelectDone(c), SelectClosed(c)} && Reports(t, c, reply)
    ensures reply.Blocks? ==> t == s && !Ready(s, c)
    ensures reply.ConnClosed? ==> s.done
    ensures reply.DeadlineExceeded? ==> s.calls[c].phase.chan in s.deadline.closed
    ensures reply.Data? ==> s.calls[c].kind.Read? && s.queue != [] && CutTo(reply, s.queue[0], s.calls[c].kind.size)
    ensures reply.Written? ==> s.calls[c].kind.Write? && |s.queue| < 128
                               && reply.n == |s.calls[c].kind.packet.payload|
  {
    var call := s.calls[c];
    if
    case call.kind.Read? && s.queue != [] =>
      a := SelectQueue(c);
      var info := s.queue[0];
      t := s.(queue := s.queue[1..], left := s.left + [info], takers := s.takers + [ByCall(c)],
              calls := s.calls[c := call.(phase := Returned(Took(|s.left|)))]);
      reply := Delivered(info, call.kind.size);
    case call.kind.Write? && |s.queue| < QUEUE_SIZE =>
      a := SelectQueue(c);
      var info := call.kind.packet;
      t := s.(queue := s.queue + [info], entered := s.entered + [info], putters := s.putters + [ByCall(c)],
              calls := s.calls[c := call.(phase := Returned(Queued(|s.entered|)))]);
      reply := Written(|info.payload|);
    case s.done =>
      a := SelectDone(c);
      t := s.(calls := s.calls[c := call.(phase := Returned(Closed))]);
      reply := ConnClosed;
    case call.phase.chan in s.deadline.closed =>
      a := SelectClosed(c);
      t := s.(calls := s.calls[c := call.(phase := Returned(TimedOut(call.phase.chan)))]);
      reply := DeadlineExceeded;
    case !Ready(s, c) =>
      a := SelectDone(c);
      t, reply := s, Blocks;
  }

  /** Steps of everybody else. */
  predicate Foreign(a: Action, c: nat) {
    match a
    case Begin(b, _) => b != c
    case CheckDone(b) => b != c
    case FirstWait(b) => b != c
    case CheckClosed(b) => b != c
    case SecondWait(b) => b != c
    case SelectQueue(b) => b != c
    case SelectDone(b) => b != c
    case SelectClosed(b) => b != c
    case _ => true
  }

  ghost predicate AllForeign(actions: seq<Action>, c: nat) {
    forall a | a in actions :: Foreign(a, c)
  }

  lemma {:induction false} RunAppend(s: Side, a: seq<Action>, b: seq<Action>)
    ensures Run(s, a + b) == Run(Run(s, a), b)
    decreases |a|
  {
    if a == [] {
      assert a + b == b;
    } else {
      assert (a + b)[1..] == a[1..] + b;
      RunAppend(Do(s, a[0]), a[1..], b);
    }
  }

  lemma {:induction false} ForeignRun(s: Side, c: nat, actions: seq<Action>)
    requires c in s.calls && AllForeign(actions, c)
    ensures c in Run(s, actions).calls && Run(s, actions).calls[c] == s.calls[c]
    decreases |actions|
  {
    if actions != [] {
      assert Foreign(actions[0], c);
      ForeignRun(Do(s, actions[0]), c, actions[1..]);
    }
  }

  /** Others run, and then the call takes a step of its own. */
  lemma Interleave(s: Side, trace: seq<Action>, others: seq<Action>, c: nat, a: Action)
    requires c in Run(s, trace).calls && AllForeign(others, c)
    ensures var t := Run(Run(s, trace), others);
      c in t.calls && t.calls[c] == Run(s, trace).calls[c] && Run(s, trace + others + [a]) == Do(t, a)
  {
    ForeignRun(Run(s, trace), c, others);
    RunAppend(s, trace, others);
    RunAppend(s, trace + others, [a]);
    assert [a][1..] == [];
  }

  /** What the others do before each of the five steps of a call. */
  datatype Gaps = Gaps(check: seq<Action>, first: seq<Action>, look: seq<Action>, second: seq<Action>,
        select: seq<Action>)

  ghost predicate GapsForeign(g: Gaps, c: nat) {
    AllForeign(g.check, c) && AllForeign(g.first, c) && AllForeign(g.look, c) && AllForeign(g.second, c)
        && AllForeign(g.select, c)
  }

  /** The call has come this far without a result: it is still in a phase before its end. */
  predicate Pending(s: Side, c: nat) {
    c in s.calls && !s.calls[c].phase.Returned?
  }

  /** Nobody else does anything during the call. */
  predicate Undisturbed(g: Gaps) {
    g.check == [] && g.first == [] && g.look == [] && g.second == [] && g.select == []
  }

  /** What a call must come to while nobody else moves: the end of the connection goes first, then the deadline. */
  ghost predicate Immediate(s: Side, kind: Kind, reply: Reply) {
    if s.done then reply == ConnClosed
    else if s.deadline.cancel in s.deadline.closed then reply == DeadlineExceeded
    else match kind
      case Read(size) => if s.queue == [] then reply == Blocks else CutTo(reply, s.queue[0], size)
      case Write(p) => reply == if |s.queue| < 128 then Written(|p.payload|) else Blocks
  }

  /** The same queue, end and deadline, and the call is of the same kind. */
  ghost predicate SameFor(s: Side, t: Side, c: nat) {
    && c in s.calls && c in t.calls && t.calls[c].kind == s.calls[c].kind
    && t.queue == s.queue && t.done == s.done && t.deadline.caller == s.deadline.caller
    && t.deadline.cancel == s.deadline.cancel && t.deadline.closed == s.deadline.closed
  }

  lemma {:induction false} DoneStays(s: Side, actions: seq<Action>)
    requires s.done
    ensures Run(s, actions).done
    decreases |actions|
  {
    if actions != [] {
      DoneStays(Do(s, actions[0]), actions[1..]);
    }
  }

  method LookDone(s: Side, c: nat) returns (t: Side, reply: Reply)
    requires AtPhase(s, c, Started)
    ensures t == Do(s, CheckDone(c)) && Reports(t, c, reply) && SameFor(s, t, c)
    ensures s.done ==> reply == ConnClosed
    ensures !s.done ==> reply == Blocks && Pending(t, c)
    ensures Pending(t, c) ==> AtPhase(t, c, Alive)
  {
    if s.done {
      return s.(calls := s.calls[c := s.calls[c].(phase := Returned(Closed))]), ConnClosed;
    }
    return s.(calls := s.calls[c := s.calls[c].(phase := Alive)]), Blocks;
  }

  method LookClosed(s: Side, c: nat) returns (t: Side, reply: Reply)
    requires c in s.calls && s.calls[c].phase.Seen?
    ensures t == Do(s, CheckClosed(c)) && Reports(t, c, reply) && SameFor(s, t, c)
    ensures s.calls[c].phase.chan in s.deadline.closed ==> reply == DeadlineExceeded
    ensures s.calls[c].phase.chan !in s.deadline.closed ==> reply == Blocks && Pending(t, c)
    ensures Pending(t, c) ==> AtPhase(t, c, Fine)
  {
    var chan := s.calls[c].phase.chan;
    if chan in s.deadline.closed {
      return s.(calls := s.calls[c := s.calls[c].(phase := Returned(TimedOut(chan)))]), DeadlineExceeded;
    }
    return s.(calls := s.calls[c := s.calls[c].(phase := Fine)]), Blocks;
  }

  /** deadline.wait(): blocked while a set call holds the mutex. */
  method AskChannel(s: Side, c: nat, first: bool) returns (t: Side, ok: bool)
    requires AtPhase(s, c, if first then Alive else Fine)
    ensures t == Do(s, if first then FirstWait(c) else SecondWait(c)) && Reports(t, c, Blocks)
    ensures ok == s.deadline.caller.Idle? && t.deadline.caller == s.deadline.caller
    ensures ok ==> t.calls[c].phase == if first then Seen(s.deadline.cancel) else Selecting(s.deadline.cancel)
    ensures SameFor(s, t, c)
  {
    if !s.deadline.caller.Idle? {
      return s, false;
    }
    var chan := s.deadline.cancel;
    t := s.(deadline := s.deadline.(handed := s.deadline.handed + {chan}),
            calls := s.calls[c := s.calls[c].(phase := if first then Seen(chan) else Selecting(chan))]);
    ok := true;
  }

  /** Up to the point where the deadline has been found open. */
  method CheckFirst(ghost s: Side, ghost trace: seq<Action>, now: Side, c: nat, g: Gaps)
    returns (t: Side, reply: Reply, ghost longer: seq<Action>)
    requires now == Run(s, trace) && AtPhase(now, c, Started) && GapsForeign(g, c)
    ensures t == Run(s, longer) && Reports(t, c, reply)
    ensures Pending(t, c) ==> AtPhase(t, c, Fine) || !t.deadline.caller.Idle?
    ensures now.done ==> reply == ConnClosed && !Pending(t, c)
    ensures Undisturbed(g) && now.deadline.caller.Idle? ==>
      if now.done || now.deadline.cancel in now.deadline.closed
      then Immediate(now, now.calls[c].kind, reply) && !Pending(t, c)
      else AtPhase(t, c, Fine) && SameFor(now, t, c)
  {
    if now.done {
      DoneStays(now, g.check);
    }
    Interleave(s, trace, g.check, c, CheckDone(c));
    t, reply := LookDone(Run(now, g.check), c);
    longer := trace + g.check + [CheckDone(c)];
    if t.calls[c].phase.Returned? {
      return;
    }
    var ok;
    Interleave(s, longer, g.first, c, FirstWait(c));
    t, ok := AskChannel(Run(t, g.first), c, true);
    longer := longer + g.first + [FirstWait(c)];
    if !ok {
      return;
    }
    Interleave(s, longer, g.look, c, CheckClosed(c));
    t, reply := LookClosed(Run(t, g.look), c);
    longer := longer + g.look + [CheckClosed(c)];
  }

  /** From there: ask for the channel again and wait. */
  method WaitThen(ghost s: Side, ghost trace: seq<Action>, now: Side, c: nat, g: Gaps)
    returns (t: Side, reply: Reply, ghost longer: seq<Action>)
    requires now == Run(s, trace) && AtPhase(now, c, Fine) && GapsForeign(g, c)
    ensures t == Run(s, longer) && Reports(t, c, reply)
    ensures reply.Blocks? ==> !t.deadline.caller.Idle? || (t.calls[c].phase.Selecting? && !Ready(t, c))
    ensures Undisturbed(g) && now.deadline.caller.Idle? && !now.done && now.deadline.cancel !in now.deadline.closed ==>
      Immediate(now, now.calls[c].kind, reply)
  {
    var ok;
    Interleave(s, trace, g.second, c, SecondWait(c));
    t, ok := AskChannel(Run(now, g.second), c, false);
    longer := trace + g.second + [SecondWait(c)];
    if !ok {
      return t, Blocks, longer;
    }
    ghost var a;
    ForeignRun(t, c, g.select);
    var u := Run(t, g.select);
    t, reply, a := Select(u, c);
    Interleave(s, longer, g.select, c, a);
    longer := longer + g.select + [a];
  }

  /**
    ReadWithMetadata or WriteWithMetadata, with any steps of the other goroutines between its
    own.  It is a run of the machine and replies what that run records; it stays blocked only
    on the mutex of the deadline or when none of its cases is ready.
  */
  method PerformCall(s: Side, c: nat, kind: Kind, g: Gaps) returns (t: Side, reply: Reply, ghost trace: seq<Action>)
    requires c !in s.calls && GapsForeign(g, c)
    ensures t == Run(s, trace) && Reports(t, c, reply)
    ensures reply.Blocks? ==> !t.deadline.caller.Idle? || (t.calls[c].phase.Selecting? && !Ready(t, c))
    ensures s.done ==> reply == ConnClosed
    ensures Undisturbed(g) && s.deadline.caller.Idle? ==> Immediate(s, kind, reply)
  {
    t, trace := s.(calls := s.calls[c := Call(kind, Started)]), [Begin(c, kind)];
    assert trace[1..] == [] && Run(Do(s, Begin(c, kind)), []) == Do(s, Begin(c, kind));
    t, reply, trace := CheckFirst(s, trace, t, c, g);
    if AtPhase(t, c, Fine) {
      t, reply, trace := WaitThen(s, trace, t, c, g);
    }
  }

  // ---------- setting the deadlines and closing ----------

  class PacketConn {
    var done: bool
    const readDeadline: D.PacketDeadline
    const writeDeadline: D.PacketDeadline

    ghost predicate Valid()
      reads this, readDeadline, writeDeadline
    {
      readDeadline != writeDeadline && readDeadline.Valid() && writeDeadline.Valid()
    }

    constructor (now: int)
      ensures Valid() && !done && fresh(readDeadline) && fresh(writeDeadline)
      ensures readDeadline.Abs() == D.Fresh(now) && writeDeadline.Abs() == D.Fresh(now)
    {
      done := false;
      readDeadline := new D.PacketDeadline(now);
      writeDeadline := new D.PacketDeadline(now);
    }

    /** Refused after Close; otherwise both deadlines are in force, each with its channel as set promises. */
    method SetDeadline(t: Target) returns (ok: bool)
      requires Valid()
      modifies readDeadline, writeDeadline
      ensures Valid() && ok == !done
      ensures ok ==> readDeadline.inForce == t && writeDeadline.inForce == t
      ensures ok ==> (readDeadline.cancel in readDeadline.closed <==> t.At? && t.time <= readDeadline.now)
      ensures ok ==> (writeDeadline.cancel in writeDeadline.closed <==> t.At? && t.time <= writeDeadline.now)
      ensures !ok ==> readDeadline.Abs() == old(readDeadline.Abs()) && writeDeadline.Abs() == old(writeDeadline.Abs())
    {
      if done {
        return false;
      }
      readDeadline.Set(t);
      writeDeadline.Set(t);
      ok := true;
    }

    /** Afterwards the connection is done, no timer of either deadline is left and both channels are open. */
    method Close()
      requires Valid()
      modifies this`done, readDeadline, writeDeadline
      ensures Valid() && done
      ensures readDeadline.inForce == Never && readDeadline.cancel !in readDeadline.closed
      ensures writeDeadline.inForce == Never && writeDeadline.cancel !in writeDeadline.closed
      ensures readDeadline.timer.NoTimer? && writeDeadline.timer.NoTimer?
    {
      done := true;
      readDeadline.Set(Never);
      writeDeadline.Set(Never);
    }
  }
}
