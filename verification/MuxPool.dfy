/**
  The pool of mux sessions of a client (tunnel/mux/client.go).

  Everything under the pool lock is one step; what happens between steps is that streams end,
  sessions die, time passes, the context ends on its own, and sessions taken out of the pool
  are handed to closeMuxClients.
  Sessions are numbered in the order they are created; `leaving` holds those that a caller has
  taken out and not yet handed over.
*/
module MuxPool {
  datatype Session = Session(id: nat, streams: nat, dead: bool, lastActiveTime: int)

  datatype State = State(
    concurrency: int,
    timeout: int,
    now: int,
    sessions: seq<Session>,
    pool: map<nat, nat>,
    closed: bool,
    cancelled: bool,
    leaving: multiset<nat>,
    handed: multiset<nat>)

  function Fresh(concurrency: int, timeout: int, now: int): State {
    State(concurrency, timeout, now, [], map[], false, false, multiset{}, multiset{})
  }

  /** How the calls into the layers below turn out: the dial, the random id, and Open on a session. */
  datatype World = World(id: nat, dials: bool, opens: bool)

  datatype Action =
    | Tick(n: nat)
    | StreamEnds(i: nat)
    | Dies(i: nat)
    | HandOver(i: nat)
    | Cancel
    | DialConn(order: seq<nat>, world: World)
    | CleanTick(order: seq<nat>)
    | CleanExit(order: seq<nat>)
    | Close(order: seq<nat>)

  /** `order` is an order in which a range over the pool may visit its keys. */
  predicate Visits(order: seq<nat>, pool: map<nat, nat>) {
    (forall id | id in pool :: id in order) && (forall id | id in order :: id in pool)
    && forall i, j | 0 <= i < j < |order| :: order[i] != order[j]
  }

  function Put(s: State, i: nat, session: Session): State
    requires i < |s.sessions|
  {
    s.(sessions := s.sessions[i := session])
  }

  function DoStreamEnds(s: State, i: nat): State {
    if i < |s.sessions| && s.sessions[i].streams > 0 then
      Put(s, i, s.sessions[i].(streams := s.sessions[i].streams - 1))
    else s
  }

  function DoDies(s: State, i: nat): State {
    if i < |s.sessions| then Put(s, i, s.sessions[i].(dead := true)) else s
  }

  function DoHandOver(s: State, i: nat): State {
    if i in s.leaving then s.(leaving := s.leaving - multiset{i}, handed := s.handed + multiset{i}) else s
  }

  /** delete(clientPool, id) and append the session to the caller's list. */
  function Remove(s: State, id: nat): State {
    if id in s.pool then s.(pool := s.pool - {id}, leaving := s.leaving + multiset{s.pool[id]}) else s
  }

  // ---------- cleaning ----------

  /** The cleaner's test: dead, or without streams for longer than the timeout. */
  predicate Stale(s: State, i: nat) {
    i < |s.sessions| &&
    (s.sessions[i].dead || (s.sessions[i].streams == 0 && s.now - s.sessions[i].lastActiveTime > s.timeout))
  }

  predicate Swept(s: State, id: nat, all: bool) {
    id in s.pool && (all || Stale(s, s.pool[id]))
  }

  /** A range over the pool that takes out the stale sessions, or all of them. */
  function Sweep(s: State, order: seq<nat>, all: bool): State
    decreases |order|
  {
    if order == [] then s
    else Sweep(if Swept(s, order[0], all) then Remove(s, order[0]) else s, order[1..], all)
  }

  // ---------- dialling ----------

  datatype Reply = Opened(i: nat) | Failed

  datatype Dialled = Dialled(state: State, reply: Reply)

  predicate HasRoom(s: State, i: nat) {
    i < |s.sessions| && (s.sessions[i].streams < s.concurrency || s.concurrency <= 0)
  }

  /** createNewConn: a session on which Open fails is taken out of the pool. */
  function OpenOn(s: State, i: nat, opens: bool): Dialled
    requires i < |s.sessions|
  {
    var used := s.sessions[i].(lastActiveTime := s.now);
    if opens then Dialled(Put(s, i, used.(streams := used.streams + 1)), Opened(i))
    else Dialled(Remove(Put(s, i, used), used.id), Failed)
  }

  /** newMuxClient followed by createNewConn. */
  function OpenNew(s: State, world: World): Dialled {
    if world.id in s.pool || !world.dials then Dialled(s, Failed)
    else
      var i := |s.sessions|;
      OpenOn(s.(sessions := s.sessions + [Session(world.id, 0, false, s.now)], pool := s.pool[world.id := i]),
            i, world.opens)
  }

  /** The range over the pool: dead sessions are taken out, the first live one with room is used. */
  function Visit(s: State, order: seq<nat>, world: World): Dialled
    decreases |order|
  {
    if order == [] then OpenNew(s, world)
    else if order[0] !in s.pool || s.pool[order[0]] >= |s.sessions| then Visit(s, order[1..], world)
    else
      var i := s.pool[order[0]];
      if s.sessions[i].dead then Visit(Remove(s, order[0]), order[1..], world)
      else if HasRoom(s, i) then OpenOn(s, i, world.opens)
      else Visit(s, order[1..], world)
  }

  function Dial(s: State, order: seq<nat>, world: World): Dialled {
    if s.closed then Dialled(s, Failed) else Visit(s, order, world)
  }

  // ---------- runs ----------

  function Drain(s: State, order: seq<nat>): State {
    Sweep(s.(closed := true), order, true)
  }

  function Do(s: State, a: Action): State {
    match a
    case Tick(n) => s.(now := s.now + n)
    case StreamEnds(i) => DoStreamEnds(s, i)
    case Dies(i) => DoDies(s, i)
    case HandOver(i) => DoHandOver(s, i)
    case Cancel => s.(cancelled := true)
    case DialConn(order, world) => if Visits(order, s.pool) then Dial(s, order, world).state else s
    case CleanTick(order) => if Visits(order, s.pool) then Sweep(s, order, false) else s
    case CleanExit(order) => if Visits(order, s.pool) && s.cancelled then Drain(s, order) else s
    case Close(order) =>
      if !Visits(order, s.pool) then s
      else if s.closed then s.(cancelled := true)
      else Drain(s, order).(cancelled := true)
  }

  function Run(s: State, actions: seq<Action>): State
    decreases |actions|
  {
    if actions == [] then s else Run(Do(s, actions[0]), actions[1..])
  }

  // ---------- what every step keeps ----------

  /** Pooled sessions are pooled under their own id. */
  ghost predicate OwnIds(s: State) {
    forall id | id in s.pool :: s.pool[id] < |s.sessions| && s.sessions[s.pool[id]].id == id
  }

  predicate InPool(s: State, i: nat) {
    i < |s.sessions| && s.sessions[i].id in s.pool && s.pool[s.sessions[i].id] == i
  }

  function Times(s: State, i: nat): nat {
    s.leaving[i] + s.handed[i]
  }

  /** A session is in the pool, or was taken out and handed over once, never both. */
  ghost predicate Placed(s: State) {
    forall i: nat :: Times(s, i) == if i < |s.sessions| && !InPool(s, i) then 1 else 0
  }

  ghost predicate Capped(s: State) {
    s.concurrency > 0 ==> forall i | 0 <= i < |s.sessions| :: s.sessions[i].streams <= s.concurrency
  }

  ghost predicate Core(s: State) {
    OwnIds(s) && Placed(s) && Capped(s)
  }

  ghost predicate Inv(s: State) {
    Core(s) && (s.closed ==> s.pool == map[])
  }

  lemma PutKept(s: State, i: nat, session: Session)
    requires Core(s) && i < |s.sessions| && session.id == s.sessions[i].id
    requires s.concurrency > 0 ==> session.streams <= s.concurrency
    ensures Core(Put(s, i, session))
  {
    var t := Put(s, i, session);
    forall j: nat
      ensures Times(t, j) == if j < |t.sessions| && !InPool(t, j) then 1 else 0
    {
      assert InPool(t, j) <==> InPool(s, j);
      assert Times(t, j) == Times(s, j);
    }
  }

  lemma HandOverKept(s: State, i: nat)
    requires Core(s)
    ensures Core(DoHandOver(s, i))
  {
    var t := DoHandOver(s, i);
    forall j: nat
      ensures Times(t, j) == if j < |t.sessions| && !InPool(t, j) then 1 else 0
    {
      assert InPool(t, j) <==> InPool(s, j);
      assert Times(t, j) == Times(s, j);
    }
  }

  lemma RemoveKept(s: State, id: nat)
    requires Core(s)
    ensures Core(Remove(s, id))
  {
    var t := Remove(s, id);
    if id in s.pool {
      var k := s.pool[id];
      forall j: nat
        ensures Times(t, j) == if j < |t.sessions| && !InPool(t, j) then 1 else 0
      {
        assert Times(s, j) == if j < |s.sessions| && !InPool(s, j) then 1 else 0;
        assert InPool(t, j) <==> InPool(s, j) && j != k;
      }
    }
  }

  lemma {:induction false} SweepKept(s: State, order: seq<nat>, all: bool)
    requires Core(s)
    ensures Core(Sweep(s, order, all))
    decreases |order|
  {
    if order != [] {
      RemoveKept(s, order[0]);
      SweepKept(if Swept(s, order[0], all) then Remove(s, order[0]) else s, order[1..], all);
    }
  }

  lemma AddKept(s: State, id: nat)
    requires Core(s) && id !in s.pool
    ensures Core(s.(sessions := s.sessions + [Session(id, 0, false, s.now)], pool := s.pool[id := |s.sessions|]))
  {
    var n := |s.sessions|;
    var t := s.(sessions := s.sessions + [Session(id, 0, false, s.now)], pool := s.pool[id := n]);
    assert Times(s, n) == 0;
    forall j: nat
      ensures Times(t, j) == if j < |t.sessions| && !InPool(t, j) then 1 else 0
    {
      assert Times(t, j) == Times(s, j);
      assert Times(s, j) == if j < |s.sessions| && !InPool(s, j) then 1 else 0;
      assert InPool(t, j) <==> InPool(s, j) || j == n;
    }
  }

  lemma OpenKept(s: State, i: nat, opens: bool)
    requires Core(s) && HasRoom(s, i)
    ensures Core(OpenOn(s, i, opens).state)
  {
    var used := s.sessions[i].(lastActiveTime := s.now);
    if opens {
      PutKept(s, i, used.(streams := used.streams + 1));
    } else {
      PutKept(s, i, used);
      RemoveKept(Put(s, i, used), used.id);
    }
  }

  lemma NewKept(s: State, world: World)
    requires Core(s)
    ensures Core(OpenNew(s, world).state)
  {
    if world.id !in s.pool && world.dials {
      AddKept(s, world.id);
      var n := |s.sessions|;
      OpenKept(s.(sessions := s.sessions + [Session(world.id, 0, false, s.now)], pool := s.pool[world.id := n]),
            n, world.opens);
    }
  }

  lemma {:induction false} VisitKept(s: State, order: seq<nat>, world: World)
    requires Core(s)
    ensures Core(Visit(s, order, world).state)
    decreases |order|
  {
    if order == [] {
      NewKept(s, world);
    } else if order[0] !in s.pool {
      VisitKept(s, order[1..], world);
    } else {
      var i := s.pool[order[0]];
      if s.sessions[i].dead {
        RemoveKept(s, order[0]);
        VisitKept(Remove(s, order[0]), order[1..], world);
      } else if HasRoom(s, i) {
        OpenKept(s, i, world.opens);
      } else {
        VisitKept(s, order[1..], world);
      }
    }
  }

  /** What a sweep leaves in the pool; the sessions themselves are not touched. */
  lemma {:induction false} SweepLeaves(s: State, order: seq<nat>, all: bool, id: nat)
    ensures var t := Sweep(s, order, all);
      && t == s.(pool := t.pool, leaving := t.leaving)
      && (id in t.pool <==> id in s.pool && !(id in order && Swept(s, id, all)))
      && (id in t.pool ==> t.pool[id] == s.pool[id])
    decreases |order|
  {
    if order != [] {
      var u := if Swept(s, order[0], all) then Remove(s, order[0]) else s;
      SweepLeaves(u, order[1..], all, id);
      assert id in order <==> id == order[0] || id in order[1..];
    }
  }

  lemma DrainEmpties(s: State, order: seq<nat>)
    requires Visits(order, s.pool)
    ensures Drain(s, order).pool == map[] && Drain(s, order).closed
  {
    var t := s.(closed := true);
    SweepLeaves(t, order, true, 0);
    forall id: nat
      ensures id !in Drain(s, order).pool
    {
      SweepLeaves(t, order, true, id);
    }
  }

  lemma {:induction false} VisitFrame(s: State, order: seq<nat>, world: World)
    ensures var t := Visit(s, order, world).state;
      t == s.(sessions := t.sessions, pool := t.pool, leaving := t.leaving)
    decreases |order|
  {
    if order != [] {
      VisitFrame(s, order[1..], world);
      VisitFrame(Remove(s, order[0]), order[1..], world);
    }
  }

  lemma DrainKept(s: State, order: seq<nat>)
    requires Inv(s) && Visits(order, s.pool)
    ensures Inv(Drain(s, order))
  {
    var t := s.(closed := true);
    assert forall i: nat :: Times(t, i) == Times(s, i) && InPool(t, i) == InPool(s, i);
    assert Core(t);
    SweepKept(t, order, true);
    DrainEmpties(s, order);
  }

  lemma CleanKept(s: State, order: seq<nat>)
    requires Inv(s)
    ensures Inv(Sweep(s, order, false))
  {
    SweepKept(s, order, false);
    var t := Sweep(s, order, false);
    SweepLeaves(s, order, false, 0);
    if s.closed {
      forall id: nat
        ensures id !in t.pool
      {
        SweepLeaves(s, order, false, id);
      }
    }
  }

  /** Fields that the place of a session does not depend on. */
  lemma TimeKept(s: State, now: int, cancelled: bool)
    requires Inv(s)
    ensures Inv(s.(now := now, cancelled := cancelled))
  {
    var t := s.(now := now, cancelled := cancelled);
    assert forall i: nat :: Times(t, i) == Times(s, i) && InPool(t, i) == InPool(s, i);
  }

  lemma InvKept(s: State, a: Action)
    requires Inv(s)
    ensures Inv(Do(s, a))
  {
    match a
    case Tick(n) => TimeKept(s, s.now + n, s.cancelled);
    case StreamEnds(i) =>
      if i < |s.sessions| && s.sessions[i].streams > 0 {
        PutKept(s, i, s.sessions[i].(streams := s.sessions[i].streams - 1));
      }
    case Dies(i) =>
      if i < |s.sessions| {
        PutKept(s, i, s.sessions[i].(dead := true));
      }
    case HandOver(i) => HandOverKept(s, i);
    case Cancel => TimeKept(s, s.now, true);
    case DialConn(order, world) =>
      VisitKept(s, order, world);
      VisitFrame(s, order, world);
    case CleanTick(order) => CleanKept(s, order);
    case CleanExit(order) =>
      if Visits(order, s.pool) {
        DrainKept(s, order);
      }
    case Close(order) =>
      TimeKept(s, s.now, true);
      if Visits(order, s.pool) {
        DrainKept(s, order);
        TimeKept(Drain(s, order), Drain(s, order).now, true);
      }
  }

  lemma {:induction false} InvOverRuns(s: State, actions: seq<Action>)
    requires Inv(s)
    ensures Inv(Run(s, actions))
    decreases |actions|
  {
    if actions != [] {
      InvKept(s, actions[0]);
      InvOverRuns(Do(s, actions[0]), actions[1..]);
    }
  }

  // ---------- the promises, in every reachable state ----------

  lemma FreshInv(concurrency: int, timeout: int, now: int)
    ensures Inv(Fresh(concurrency, timeout, now))
  {
    var s := Fresh(concurrency, timeout, now);
    assert forall i: nat :: Times(s, i) == 0;
  }

  /**
    Each session ever added is in the pool under its own id and was never taken out, or it is
    not in the pool and was taken out exactly once, to be handed to closeMuxClients once.
  */
  lemma PooledOrHandedOnce(concurrency: int, timeout: int, now: int, actions: seq<Action>, i: nat)
    requires i < |Run(Fresh(concurrency, timeout, now), actions).sessions|
    ensures var s := Run(Fresh(concurrency, timeout, now), actions);
      && (InPool(s, i) ==> s.leaving[i] == 0 && s.handed[i] == 0)
      && (!InPool(s, i) ==> s.leaving[i] + s.handed[i] == 1)
      && (s.leaving == multiset{} && !InPool(s, i) ==> s.handed[i] == 1)
  {
    FreshInv(concurrency, timeout, now);
    InvOverRuns(Fresh(concurrency, timeout, now), actions);
    var s := Run(Fresh(concurrency, timeout, now), actions);
    assert Times(s, i) == if i < |s.sessions| && !InPool(s, i) then 1 else 0;
  }

  lemma {:induction false} ConcurrencyFixed(s: State, actions: seq<Action>)
    ensures Run(s, actions).concurrency == s.concurrency
    decreases |actions|
  {
    if actions != [] {
      var a := actions[0];
      match a {
        case DialConn(order, world) => VisitFrame(s, order, world);
        case CleanTick(order) => SweepLeaves(s, order, false, 0);
        case CleanExit(order) => SweepLeaves(s.(closed := true), order, true, 0);
        case Close(order) => SweepLeaves(s.(closed := true), order, true, 0);
        case _ =>
      }
      ConcurrencyFixed(Do(s, a), actions[1..]);
    }
  }

  /** With a positive concurrency no session ever carries more streams than that. */
  lemma CapHolds(concurrency: int, timeout: int, now: int, actions: seq<Action>, i: nat)
    requires concurrency > 0 && i < |Run(Fresh(concurrency, timeout, now), actions).sessions|
    ensures Run(Fresh(concurrency, timeout, now), actions).sessions[i].streams <= concurrency
  {
    FreshInv(concurrency, timeout, now);
    InvOverRuns(Fresh(concurrency, timeout, now), actions);
    ConcurrencyFixed(Fresh(concurrency, timeout, now), actions);
  }

  /** Once closed and drained, the pool stays empty for ever and no session is created any more. */
  lemma {:induction false} ClosedForEver(s: State, actions: seq<Action>)
    requires Inv(s) && s.closed
    ensures var t := Run(s, actions); t.closed && t.pool == map[] && |t.sessions| == |s.sessions|
    decreases |actions|
  {
    if actions != [] {
      var a := actions[0];
      InvKept(s, a);
      match a {
        case CleanTick(order) => SweepLeaves(s, order, false, 0);
        case CleanExit(order) => SweepLeaves(s.(closed := true), order, true, 0);
        case _ =>
      }
      ClosedForEver(Do(s, a), actions[1..]);
    }
  }

  /** Both ways of closing take every session out of the pool. */
  lemma CloseTakesAll(s: State, order: seq<nat>)
    requires Inv(s) && Visits(order, s.pool)
    ensures var t := Do(s, Close(order)); t.closed && t.cancelled && t.pool == map[]
    ensures s.cancelled ==> Do(s, CleanExit(order)).closed && Do(s, CleanExit(order)).pool == map[]
    ensures forall i: nat | i < |s.sessions| :: Times(Do(s, Close(order)), i) == 1
  {
    InvKept(s, Close(order));
    DrainEmpties(s, order);
    SweepLeaves(s.(closed := true), order, true, 0);
    var t := Do(s, Close(order));
    forall i: nat | i < |s.sessions|
      ensures Times(t, i) == 1
    {
      assert !InPool(t, i);
    }
  }

  /** A cleaning round takes out exactly the pooled sessions that are dead or idle for too long. */
  lemma CleanExactly(s: State, order: seq<nat>, i: nat)
    requires Inv(s) && Visits(order, s.pool) && InPool(s, i)
    ensures InPool(Do(s, CleanTick(order)), i) <==> !Stale(s, i)
  {
    SweepLeaves(s, order, false, s.sessions[i].id);
  }

  /** What a dial did to the sessions it did not open: their streams and their place in the list. */
  ghost predicate OneMore(s: State, t: State, i: nat) {
    && i < |t.sessions| && InPool(t, i) && !t.sessions[i].dead
    && t.sessions[i].streams == (if i < |s.sessions| then s.sessions[i].streams else 0) + 1
    && |t.sessions| == (if i < |s.sessions| then |s.sessions| else |s.sessions| + 1)
    && forall j: nat | j < |s.sessions| && j != i :: t.sessions[j] == s.sessions[j]
  }

  lemma OpenedIs(s: State, i: nat)
    requires Core(s) && InPool(s, i) && !s.sessions[i].dead
    ensures OneMore(s, OpenOn(s, i, true).state, i)
  {
  }

  /** A successful dial opens one stream, on one live session of the pool, and touches no other. */
  lemma {:induction false} DialOpensOne(s: State, order: seq<nat>, world: World)
    requires Core(s) && Visit(s, order, world).reply.Opened?
    ensures OneMore(s, Visit(s, order, world).state, Visit(s, order, world).reply.i)
    decreases |order|
  {
    if order == [] {
    } else if order[0] !in s.pool {
      DialOpensOne(s, order[1..], world);
    } else {
      var i := s.pool[order[0]];
      if s.sessions[i].dead {
        RemoveKept(s, order[0]);
        DialOpensOne(Remove(s, order[0]), order[1..], world);
      } else if HasRoom(s, i) {
        OpenedIs(s, i);
      } else {
        DialOpensOne(s, order[1..], world);
      }
    }
  }

  predicate IsDead(s: State, id: nat) {
    id in s.pool && s.pool[id] < |s.sessions| && s.sessions[s.pool[id]].dead
  }

  predicate IsLive(s: State, id: nat) {
    id in s.pool && s.pool[id] < |s.sessions| && !s.sessions[s.pool[id]].dead
  }

  /** A live session of the pool that may carry one more stream; a concurrency that is not positive is no limit. */
  predicate Roomy(s: State, id: nat) {
    IsLive(s, id) && (s.concurrency <= 0 || s.sessions[s.pool[id]].streams < s.concurrency)
  }

  /** A new session is created only if no live session of the pool has room, in whatever order they are visited. */
  lemma {:induction false} DialReuses(s: State, order: seq<nat>, world: World, id: nat)
    requires Roomy(s, id) && id in order
    ensures |Visit(s, order, world).state.sessions| == |s.sessions|
    decreases |order|
  {
    if IsDead(s, order[0]) {
      DialReuses(Remove(s, order[0]), order[1..], world, id);
    } else if !Roomy(s, order[0]) {
      DialReuses(s, order[1..], world, id);
    }
  }

  // ---------- what a dial comes to ----------

  ghost predicate SomeRoomy(s: State) {
    exists id :: Roomy(s, id)
  }

  /** `t` has lost dead sessions from its pool, all of those among `gone`, and nothing else. */
  ghost predicate Thinned(s: State, t: State, gone: seq<nat>) {
    && t == s.(pool := t.pool, leaving := t.leaving)
    && (forall id | id in t.pool :: id in s.pool && t.pool[id] == s.pool[id])
    && (forall id | id in s.pool && id !in t.pool :: IsDead(s, id))
    && (forall id | id in gone && IsDead(s, id) :: id !in t.pool)
  }

  lemma ThinnedAfter(s: State, t: State, order: seq<nat>)
    requires order != [] && IsDead(s, order[0]) && Thinned(Remove(s, order[0]), t, order[1..])
    ensures Thinned(s, t, order)
  {
    var u := Remove(s, order[0]);
    forall id | id in order && IsDead(s, id)
      ensures id !in t.pool
    {
      if id != order[0] {
        assert id in order[1..] && IsDead(u, id);
      }
    }
    forall id | id in s.pool && id !in t.pool
      ensures IsDead(s, id)
    {
      if id != order[0] {
        assert id in u.pool && IsDead(u, id);
      }
    }
  }

  lemma ThinnedSkip(s: State, t: State, order: seq<nat>)
    requires order != [] && !IsDead(s, order[0]) && Thinned(s, t, order[1..])
    ensures Thinned(s, t, order)
  {
  }

  /** Without a session with room the loop takes out the dead ones and a new one is made. */
  lemma {:induction false} VisitsNone(s: State, order: seq<nat>, world: World) returns (t: State)
    requires OwnIds(s) && forall id | id in order :: !Roomy(s, id)
    ensures Visit(s, order, world) == OpenNew(t, world) && Thinned(s, t, order)
    decreases |order|
  {
    if order == [] {
      t := s;
    } else {
      assert !Roomy(s, order[0]);
      assert forall id | id in order[1..] :: id in order;
      if IsDead(s, order[0]) {
        var u := Remove(s, order[0]);
        assert forall id | id in order[1..] :: Roomy(u, id) ==> Roomy(s, id);
        t := VisitsNone(u, order[1..], world);
        ThinnedAfter(s, t, order);
      } else {
        t := VisitsNone(s, order[1..], world);
        ThinnedSkip(s, t, order);
      }
    }
  }

  /** With one it opens a stream on one. */
  lemma {:induction false} VisitsSome(s: State, order: seq<nat>, world: World, at: nat) returns (id: nat, t: State)
    requires OwnIds(s) && at in order && Roomy(s, at)
    ensures Roomy(s, id) && id in t.pool && Thinned(s, t, [])
    ensures Visit(s, order, world) == OpenOn(t, s.pool[id], world.opens)
    decreases |order|
  {
    if IsDead(s, order[0]) {
      assert at in order[1..];
      id, t := VisitsSome(Remove(s, order[0]), order[1..], world, at);
      SomeGone(s, t, order[0]);
    } else if Roomy(s, order[0]) {
      id, t := order[0], s;
    } else {
      assert at in order[1..];
      id, t := VisitsSome(s, order[1..], world, at);
    }
  }

  lemma SomeGone(s: State, t: State, id: nat)
    requires IsDead(s, id) && Thinned(Remove(s, id), t, [])
    ensures Thinned(s, t, [])
  {
    var u := Remove(s, id);
    forall k | k in s.pool && k !in t.pool
      ensures IsDead(s, k)
    {
      if k != id {
        assert k in u.pool && IsDead(u, k);
      }
    }
  }

  /** When a dial gets a stream. */
  ghost predicate Succeeds(s: State, world: World) {
    !s.closed && world.opens && (SomeRoomy(s) || (world.dials && !IsLive(s, world.id)))
  }

  /** The stream is on a session that had room, or on a new one if there was none. */
  ghost predicate OpenedOn(s: State, world: World, sessions: seq<Session>, pool: map<nat, nat>, i: nat) {
    && i < |sessions| && |s.sessions| <= |sessions| <= |s.sessions| + 1
    && (SomeRoomy(s) ==>
          && i < |s.sessions| == |sessions| && Roomy(s, s.sessions[i].id) && s.pool[s.sessions[i].id] == i
          && sessions[i] == s.sessions[i].(streams := s.sessions[i].streams + 1, lastActiveTime := s.now))
    && (!SomeRoomy(s) ==> i == |s.sessions| && sessions[i] == Session(world.id, 1, false, s.now))
    && sessions[i].id in pool && pool[sessions[i].id] == i
    && forall j | 0 <= j < |s.sessions| && j != i :: sessions[j] == s.sessions[j]
  }

  /** Only dead sessions leave the pool, all of them before a new one is made, and one on which Open failed. */
  ghost predicate PoolAfter(s: State, world: World, pool: map<nat, nat>, reply: Reply) {
    && (forall id | id in s.pool && id !in pool :: IsDead(s, id) || (Roomy(s, id) && !world.opens))
    && (forall id | id in pool :: (id in s.pool && pool[id] == s.pool[id])
                                    || (id == world.id && reply.Opened? && pool[id] == |s.sessions|))
    && (!s.closed && !SomeRoomy(s) ==> forall id | id in pool && id in s.pool && pool[id] == s.pool[id] ::
          !IsDead(s, id))
  }

  /** What a dial comes to. */
  ghost predicate Answered(s: State, world: World, sessions: seq<Session>, pool: map<nat, nat>, reply: Reply) {
    && (reply.Opened? <==> Succeeds(s, world))
    && (reply.Opened? ==> OpenedOn(s, world, sessions, pool, reply.i))
    && (s.closed ==> sessions == s.sessions && pool == s.pool)
    && PoolAfter(s, world, pool, reply)
  }

  lemma AnsweredSome(s: State, world: World, id: nat, u: State)
    requires OwnIds(s) && !s.closed && Roomy(s, id) && id in u.pool && Thinned(s, u, [])
    ensures var d := OpenOn(u, s.pool[id], world.opens); Answered(s, world, d.state.sessions, d.state.pool, d.reply)
  {
    assert SomeRoomy(s);
  }

  lemma AnsweredNone(s: State, world: World, order: seq<nat>, u: State)
    requires OwnIds(s) && !s.closed && !SomeRoomy(s) && Thinned(s, u, order) && Visits(order, s.pool)
    ensures var d := OpenNew(u, world); Answered(s, world, d.state.sessions, d.state.pool, d.reply)
  {
    assert world.id in u.pool <==> IsLive(s, world.id);
  }

  /**
    A dial gets a stream if and only if the client is not closed, Open works, and there is a
    live session with room or else a new one can be dialled under an id that no live session
    has; on which session, and what becomes of the pool, does not depend on the order.
  */
  lemma DialAnswers(s: State, order: seq<nat>, world: World)
    requires OwnIds(s) && Visits(order, s.pool)
    ensures var d := Dial(s, order, world); Answered(s, world, d.state.sessions, d.state.pool, d.reply)
  {
    if !s.closed {
      if id :| Roomy(s, id) {
        var at, t := VisitsSome(s, order, world, id);
        AnsweredSome(s, world, at, t);
      } else {
        var t := VisitsNone(s, order, world);
        AnsweredNone(s, world, order, t);
      }
    }
  }

  /** A cleaning round takes out of the pool exactly the dead sessions and those idle for longer than the timeout. */
  ghost predicate Cleaned(s: State, sessions: seq<Session>, pool: map<nat, nat>) {
    && sessions == s.sessions
    && (forall id :: id in pool <==>
          && id in s.pool && s.pool[id] < |s.sessions|
          && var info := s.sessions[s.pool[id]];
             !(info.dead || (info.streams == 0 && s.now - info.lastActiveTime > s.timeout)))
    && (forall id | id in pool :: id in s.pool && pool[id] == s.pool[id])
  }

  lemma SweepCleans(s: State, order: seq<nat>)
    requires OwnIds(s) && Visits(order, s.pool)
    ensures Cleaned(s, Sweep(s, order, false).sessions, Sweep(s, order, false).pool)
  {
    SweepLeaves(s, order, false, 0);
    var t := Sweep(s, order, false);
    forall id: nat
      ensures id in t.pool <==> id in s.pool && !Stale(s, s.pool[id])
      ensures id in t.pool ==> t.pool[id] == s.pool[id]
    {
      SweepLeaves(s, order, false, id);
    }
  }

  // ---------- the client object ----------

  /** An order in which a range visits the keys of the pool: any. */
  method Range(pool: map<nat, nat>) returns (order: seq<nat>)
    ensures Visits(order, pool)
  {
    order := [];
    var ids := pool.Keys;
    while ids != {}
      invariant ids <= pool.Keys
      invariant forall id | id in pool :: id in order <==> id !in ids
      invariant forall id | id in order :: id in pool
      invariant forall i, j | 0 <= i < j < |order| :: order[i] != order[j]
      decreases |ids|
    {
      var id :| id in ids;
      ids := ids - {id};
      order := order + [id];
    }
  }

  /** The loops of cleanLoop and of drainClientPoolLocked. */
  method SweepPool(ghost s: State, sessions: seq<Session>, pool: map<nat, nat>, now: int, timeout: int,
                   order: seq<nat>, all: bool)
    returns (left: map<nat, nat>, clients: seq<nat>)
    requires s.sessions == sessions && s.pool == pool && s.now == now && s.timeout == timeout
    requires OwnIds(s)
    ensures Sweep(s, order, all) == s.(pool := left, leaving := s.leaving + multiset(clients))
  {
    left, clients := pool, [];
    ghost var t := s;
    assert order[0..] == order;
    for k := 0 to |order|
      invariant t == s.(pool := left, leaving := s.leaving + multiset(clients)) && OwnIds(t)
      invariant Sweep(s, order, all) == Sweep(t, order[k..], all)
    {
      var id := order[k];
      assert order[k..][1..] == order[k + 1..];
      if id in left {
        var info := sessions[left[id]];
        if all || info.dead || (info.streams == 0 && now - info.lastActiveTime > timeout) {
          t := Remove(t, id);
          clients := clients + [left[id]];
          left := left - {id};
        }
      }
    }
  }

  /** What the loop of DialConn ends with: a session to open a stream on, or none. */
  datatype Choice = Use(i: nat) | MakeNew

  /** The loop of DialConn: takes out dead sessions until it meets a live one with room. */
  method FindSession(ghost s: State, sessions: seq<Session>, pool: map<nat, nat>, concurrency: int,
                     order: seq<nat>, ghost world: World)
    returns (left: map<nat, nat>, clients: seq<nat>, choice: Choice)
    requires s.sessions == sessions && s.pool == pool && s.concurrency == concurrency && OwnIds(s)
    ensures var t := s.(pool := left, leaving := s.leaving + multiset(clients));
      OwnIds(t) &&
      match choice {
        case Use(i) => InPool(t, i) && Visit(s, order, world) == OpenOn(t, i, world.opens)
        case MakeNew => Visit(s, order, world) == OpenNew(t, world)
      }
  {
    left, clients, choice := pool, [], MakeNew;
    ghost var t := s;
    assert order[0..] == order;
    for k := 0 to |order|
      invariant t == s.(pool := left, leaving := s.leaving + multiset(clients)) && OwnIds(t) && choice == MakeNew
      invariant Visit(s, order, world) == Visit(t, order[k..], world)
    {
      var id := order[k];
      assert order[k..][1..] == order[k + 1..];
      if id in left {
        var i := left[id];
        if sessions[i].dead {
          t := Remove(t, id);
          clients := clients + [i];
          left := left - {id};
        } else if sessions[i].streams < concurrency || concurrency <= 0 {
          choice := Use(i);
          return;
        }
      }
    }
  }

  /** The state once everything taken out beyond `before` has been handed over. */
  function Settled(s: State, before: multiset<nat>): State {
    s.(leaving := before, handed := s.handed + (s.leaving - before))
  }

  /** Handing over a list one by one, as closeMuxClients does. */
  function HandAll(s: State, clients: seq<nat>): State
    decreases |clients|
  {
    if clients == [] then s else HandAll(DoHandOver(s, clients[0]), clients[1..])
  }

  lemma {:induction false} HandAllIs(s: State, clients: seq<nat>)
    requires Inv(s) && multiset(clients) <= s.leaving
    ensures Inv(HandAll(s, clients))
    ensures HandAll(s, clients) == s.(leaving := s.leaving - multiset(clients), handed := s.handed + multiset(clients))
    decreases |clients|
  {
    if clients == [] {
      assert s.leaving - multiset(clients) == s.leaving && s.handed + multiset(clients) == s.handed;
    } else {
      HandOverKept(s, clients[0]);
      FirstOfAll(s.leaving, s.handed, clients);
      HandAllIs(DoHandOver(s, clients[0]), clients[1..]);
    }
  }

  lemma FirstOfAll(leaving: multiset<nat>, handed: multiset<nat>, clients: seq<nat>)
    requires clients != [] && multiset(clients) <= leaving
    ensures clients[0] in leaving && multiset(clients[1..]) <= leaving - multiset{clients[0]}
    ensures leaving - multiset{clients[0]} - multiset(clients[1..]) == leaving - multiset(clients)
    ensures handed + multiset{clients[0]} + multiset(clients[1..]) == handed + multiset(clients)
  {
    assert clients == [clients[0]] + clients[1..];
  }

  /** A call that took `clients` out hands exactly them over. */
  lemma HandAllSettles(s: State, before: multiset<nat>, clients: seq<nat>)
    requires Inv(s) && s.leaving == before + multiset(clients)
    ensures HandAll(s, clients) == Settled(s, before) == s.(leaving := before, handed := s.handed + multiset(clients))
    ensures Inv(Settled(s, before))
  {
    HandAllIs(s, clients);
    assert s.leaving - multiset(clients) == before && s.leaving - before == multiset(clients);
  }

  /** What a drain leaves once its sessions are handed over, with the context cancelled or not. */
  lemma DrainSettles(s: State, order: seq<nat>, left: map<nat, nat>, clients: seq<nat>, cancelled: bool)
    requires Inv(s) && Visits(order, s.pool)
    requires Drain(s, order) == s.(closed := true, pool := left, leaving := s.leaving + multiset(clients))
    ensures var t := Drain(s, order).(cancelled := cancelled);
      && left == map[] && Inv(Settled(t, s.leaving))
      && Settled(t, s.leaving)
           == s.(closed := true, cancelled := cancelled, pool := left, handed := s.handed + multiset(clients))
  {
    DrainKept(s, order);
    DrainEmpties(s, order);
    TimeKept(Drain(s, order), s.now, cancelled);
    HandAllSettles(Drain(s, order).(cancelled := cancelled), s.leaving, clients);
  }

  /** drainClientPoolLocked after `closed` was set, and closeMuxClients on its result. */
  method DrainPool(ghost s: State, sessions: seq<Session>, pool: map<nat, nat>, now: int, timeout: int,
                   ghost cancelled: bool)
    returns (left: map<nat, nat>, clients: seq<nat>, ghost order: seq<nat>)
    requires s.sessions == sessions && s.pool == pool && s.now == now && s.timeout == timeout && Inv(s)
    ensures Visits(order, pool) && left == map[] && Drain(s, order).(cancelled := s.cancelled) == Drain(s, order)
    ensures var t := Settled(Drain(s, order).(cancelled := cancelled), s.leaving);
      Inv(t) && t == s.(closed := true, cancelled := cancelled, pool := left, handed := s.handed + multiset(clients))
  {
    var ids := Range(pool);
    order := ids;
    left, clients := SweepPool(s.(closed := true), sessions, pool, now, timeout, ids, true);
    DrainSettles(s, ids, left, clients, cancelled);
  }

  /** DialConn under the lock: the loop, then Open on a session of the pool or on a new one. */
  method DialPool(ghost s: State, sessions: seq<Session>, pool: map<nat, nat>, now: int, concurrency: int,
                  order: seq<nat>, world: World)
    returns (all: seq<Session>, left: map<nat, nat>, clients: seq<nat>, reply: Reply)
    requires s.sessions == sessions && s.pool == pool && s.now == now && s.concurrency == concurrency && OwnIds(s)
    ensures Visit(s, order, world)
         == Dialled(s.(sessions := all, pool := left, leaving := s.leaving + multiset(clients)), reply)
  {
    var choice;
    left, clients, choice := FindSession(s, sessions, pool, concurrency, order, world);
    all := sessions;
    ghost var t := s.(pool := left, leaving := s.leaving + multiset(clients));
    if choice.MakeNew? {
      if world.id in left || !world.dials {
        return all, left, clients, Failed;
      }
      choice := Use(|all|);
      all, left := all + [Session(world.id, 0, false, now)], left[world.id := |all|];
      t := t.(sessions := all, pool := left);
    }
    var more;
    all, left, more, reply := CreateNewConn(t, all, left, now, choice.i, world.opens);
    assert s.leaving + multiset(clients) + multiset(more) == s.leaving + multiset(clients + more);
    clients := clients + more;
  }

  /** createNewConn; `more` is what it adds to the list of sessions to close. */
  method CreateNewConn(ghost s: State, sessions: seq<Session>, pool: map<nat, nat>, now: int, i: nat, opens: bool)
    returns (all: seq<Session>, left: map<nat, nat>, more: seq<nat>, reply: Reply)
    requires s.sessions == sessions && s.pool == pool && s.now == now && InPool(s, i)
    ensures OpenOn(s, i, opens)
        == Dialled(s.(sessions := all, pool := left, leaving := s.leaving + multiset(more)), reply)
  {
    var info := sessions[i].(lastActiveTime := now);
    if !opens {
      return sessions[i := info], pool - {info.id}, [i], Failed;
    }
    all := sessions[i := info.(streams := info.streams + 1)];
    left, more, reply := pool, [], Opened(i);
    assert s.leaving + multiset(more) == s.leaving;
  }

  /** What a dial leaves once the sessions it took out are handed over. */
  lemma DialSettles(s: State, order: seq<nat>, world: World, all: seq<Session>, left: map<nat, nat>, clients: seq<nat>,
                    reply: Reply)
    requires Inv(s) && !s.closed && Visits(order, s.pool)
    requires Visit(s, order, world)
          == Dialled(s.(sessions := all, pool := left, leaving := s.leaving + multiset(clients)), reply)
    ensures var t := Settled(Dial(s, order, world).state, s.leaving);
      && Inv(t) && t == s.(sessions := all, pool := left, handed := s.handed + multiset(clients))
      && Dial(s, order, world).reply == reply && Answered(s, world, all, left, reply)
  {
    VisitKept(s, order, world);
    HandAllSettles(Visit(s, order, world).state, s.leaving, clients);
    DialAnswers(s, order, world);
  }

  class Client {
    const concurrency: int
    const timeout: int
    var now: int
    var sessions: seq<Session>
    var clientPool: map<nat, nat>
    var closed: bool
    var cancelled: bool
    ghost var leaving: multiset<nat>
    ghost var handed: multiset<nat>

    ghost function Abs(): State
      reads this
    {
      State(concurrency, timeout, now, sessions, clientPool, closed, cancelled, leaving, handed)
    }

    ghost predicate Valid()
      reads this
    {
      Inv(Abs())
    }

    constructor (concurrency: int, timeout: int, now: int)
      ensures Valid() && Abs() == Fresh(concurrency, timeout, now)
    {
      this.concurrency, this.timeout, this.now := concurrency, timeout, now;
      sessions, clientPool, closed, cancelled := [], map[], false, false;
      leaving, handed := multiset{}, multiset{};
      FreshInv(concurrency, timeout, now);
    }

    /** DialConn; `order` is the order in which the pool was visited. */
    method DialConn(world: World) returns (reply: Reply, ghost order: seq<nat>)
      requires Valid()
      modifies this`sessions, this`clientPool, this`handed
      ensures Valid() && Visits(order, old(clientPool))
      ensures var d := Dial(old(Abs()), order, world); reply == d.reply && Abs() == Settled(d.state, old(leaving))
      ensures Answered(old(Abs()), world, sessions, clientPool, reply)
    {
      ghost var s := Abs();
      if closed {
        assert s.handed + (s.leaving - s.leaving) == s.handed;
        return Failed, [];
      }
      var ids := Range(clientPool);
      order := ids;
      var all, left, clients;
      all, left, clients, reply := DialPool(s, sessions, clientPool, now, concurrency, ids, world);
      DialSettles(s, ids, world, all, left, clients, reply);
      sessions, clientPool, handed := all, left, handed + multiset(clients);
    }

    /** One round of cleanLoop. */
    method CleanTick() returns (ghost order: seq<nat>)
      requires Valid()
      modifies this`clientPool, this`handed
      ensures Valid() && Visits(order, old(clientPool))
      ensures Abs() == Settled(Do(old(Abs()), Action.CleanTick(order)), old(leaving))
      ensures Cleaned(old(Abs()), sessions, clientPool)
    {
      var ids := Range(clientPool);
      order := ids;
      ghost var s := Abs();
      CleanKept(s, ids);
      SweepCleans(s, ids);
      var left, clients := SweepPool(s, sessions, clientPool, now, timeout, ids, false);
      HandAllSettles(Sweep(s, ids, false), s.leaving, clients);
      clientPool, handed := left, handed + multiset(clients);
    }

    method Close() returns (ghost order: seq<nat>)
      requires Valid()
      modifies this`clientPool, this`handed, this`closed, this`cancelled
      ensures Valid() && Visits(order, old(clientPool))
      ensures Abs() == Settled(Do(old(Abs()), Action.Close(order)), old(leaving))
      ensures closed && cancelled && clientPool == map[]
    {
      if closed {
        order := [];
        TimeKept(Abs(), now, true);
        assert handed + (leaving - leaving) == handed;
        cancelled := true;
        return;
      }
      var left, clients;
      left, clients, order := DrainPool(Abs(), sessions, clientPool, now, timeout, true);
      closed, clientPool, cancelled, handed := true, left, true, handed + multiset(clients);
    }

    /** The end of cleanLoop, once the context is cancelled. */
    method CleanExit() returns (ghost order: seq<nat>)
      requires Valid() && cancelled
      modifies this`clientPool, this`handed, this`closed
      ensures Valid() && Visits(order, old(clientPool))
      ensures Abs() == Settled(Do(old(Abs()), Action.CleanExit(order)), old(leaving))
      ensures closed && clientPool == map[]
    {
      var left, clients;
      left, clients, order := DrainPool(Abs(), sessions, clientPool, now, timeout, true);
      closed, clientPool, handed := true, left, handed + multiset(clients);
    }
  }
}
