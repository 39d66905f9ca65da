/**
  What the ledger promises over every run: nothing is lost but through a removal or through
  two overlapping additions of one user, exactly what is lost through them, and no batch that
  succeeded is sent again.
*/
module Conservation {
  import opened Traffic
  import opened TrafficUpdate
  import opened UserCache
  import opened Ledger
  import opened LedgerInvariant

  // ---------- nothing is negative ----------

  ghost predicate AtLeastZero(b: Book) {
    forall h, d :: Get(b, h, d) >= 0
  }

  ghost predicate CountersOk(s: State) {
    forall o | 0 <= o < |s.cache.objects| :: s.cache.objects[o].counter.sent >= 0
        && s.cache.objects[o].counter.recv >= 0
  }

  ghost predicate HandOk(s: State) {
    match s.hand
    case Nothing => true
    case TookSent(_, sent) => sent >= 0
    case TookBoth(_, delta) => delta.sent >= 0 && delta.recv >= 0
  }

  ghost predicate Positive(s: State) {
    CountersOk(s) && HandOk(s) && AtLeastZero(s.pending) && AtLeastZero(s.past.surplus) && AtLeastZero(s.past.dropped)
  }

  lemma PutOk(b: Book, h: Hash, x: Delta)
    requires AtLeastZero(b) && x.sent >= 0 && x.recv >= 0
    ensures AtLeastZero(Put(b, h, x))
  {
    forall k, d
      ensures Get(Put(b, h, x), k, d) >= 0
    {
      PutGet(b, h, x, k, d);
      assert Get(b, k, d) >= 0;
    }
  }

  lemma CountPositive(s: State, o: int, d: Direction, n: nat)
    requires Positive(s)
    ensures Positive(DoCount(s, o, d, n))
  {
  }

  lemma DropPositive(s: State, call: int)
    requires Positive(s) && Links(s)
    ensures Positive(DoDrop(s, call))
  {
    if DoDrop(s, call) != s {
      var r := s.calls[call];
      var u := s.cache.objects[r.who];
      PutOk(s.past.dropped, u.hash, Only(Emptying(r), u.counter.At(Emptying(r))));
    }
  }

  lemma TakePositive(s: State, o: int)
    requires Positive(s)
    ensures Positive(DoTakeSent(s, o)) && Positive(DoTakeRecv(s))
  {
  }

  lemma MergePositive(s: State)
    requires Positive(s)
    ensures Positive(DoMerge(s))
  {
    if s.hand.TookBoth? && Exists(s, s.hand.who) {
      PutOk(s.pending, s.cache.objects[s.hand.who].hash, s.hand.delta);
    }
  }

  lemma FlushPositive(s: State, batch: seq<Entry>, outcome: Outcome)
    requires Positive(s)
    ensures Positive(DoFlush(s, batch, outcome))
  {
    FlushFrame(s, batch, outcome);
    var t := DoFlush(s, batch, outcome);
    var due := Due(s.pending, HashSet(batch));
    forall h, d
      ensures Get(t.pending, h, d) >= 0 && Get(t.past.surplus, h, d) >= 0
    {
      assert Get(s.pending, h, d) >= 0 && Get(s.past.surplus, h, d) >= 0;
      PutAllGet(s.past.surplus, due, h, d);
    }
  }

  lemma OthersPositive(s: State, a: Action)
    requires Positive(s) && (a.Add? || a.Store? || a.Limit? || a.Remove? || a.Unregister? || a.List?)
    ensures Positive(Do(s, a))
  {
  }

  lemma PositiveKept(s: State, a: Action)
    requires Positive(s) && Links(s)
    ensures Positive(Do(s, a))
  {
    match a
    case Count(o, d, n) => CountPositive(s, o, d, n);
    case Drop(call) => DropPositive(s, call);
    case TakeSent(o) => TakePositive(s, o);
    case TakeRecv => TakePositive(s, 0);
    case Merge => MergePositive(s);
    case Flush(batch, outcome) => FlushPositive(s, batch, outcome);
    case _ => OthersPositive(s, a);
  }

  lemma {:induction false} PositiveOverRuns(s: State, actions: seq<Action>)
    requires Positive(s) && Links(s)
    ensures Positive(Run(s, actions)) && Links(Run(s, actions))
    decreases |actions|
  {
    if actions != [] {
      PositiveKept(s, actions[0]);
      LinksKept(s, actions[0]);
      PositiveOverRuns(Do(s, actions[0]), actions[1..]);
    }
  }

  // ---------- conservation ----------

  lemma BalancedSplits(s: State, h: Hash, d: Direction)
    requires BalancedFor(s, h, d)
    ensures Waiting(s, h, d) + Get(s.past.flushed, h, d) + Lost(s, h, d)
        == Get(s.past.counted, h, d) + Get(s.past.surplus, h, d)
  {
    StoredSplits(s, |s.cache.objects|, h, d);
  }

  lemma StartPositive(table: seq<Row>)
    ensures Positive(Start(table)) && Links(Start(table))
  {
  }

  /**
    Over every run, for every user and direction: what can still reach the table, what was
    flushed and what was lost is what was counted plus the surplus; the surplus is not
    negative; and each row has grown by exactly what was flushed for its user, upload by the
    received bytes and download by the sent ones.
  */
  lemma Conserved(table: seq<Row>, actions: seq<Action>, h: Hash, d: Direction)
    ensures var s := Run(Start(table), actions);
      && Waiting(s, h, d) + Get(s.past.flushed, h, d) + Lost(s, h, d)
          == Get(s.past.counted, h, d) + Get(s.past.surplus, h, d)
      && Get(s.past.surplus, h, d) >= 0
      && |s.table| == |table|
      && (forall i | 0 <= i < |table| :: s.table[i] == Credited(table[i], s.past.flushed))
  {
    StartInv(table);
    InvOverRuns(table, Start(table), actions);
    StartPositive(table);
    PositiveOverRuns(Start(table), actions);
    assert BalancedFor(Run(Start(table), actions), h, d);
    BalancedSplits(Run(Start(table), actions), h, d);
  }

  /** How much row `i` has grown: upload takes the received bytes. */
  function Growth(table: seq<Row>, s: State, i: nat, d: Direction): int
    requires i < |table| && i < |s.table|
  {
    if d == Recv then s.table[i].upload - table[i].upload else s.table[i].download - table[i].download
  }

  /**
    At least once, whatever the failures: live + in hand + pending + growth of the row never
    falls below the bytes counted by more than what was lost, and stays at or above them
    exactly as long as the losses do not exceed the surplus of ambiguous failures.
  */
  lemma AtLeastOnce(table: seq<Row>, actions: seq<Action>, i: nat, d: Direction)
    requires i < |table|
    ensures var s := Run(Start(table), actions);
      var h := table[i].hash;
      && i < |s.table|
      && Waiting(s, h, d) + Growth(table, s, i, d) + Lost(s, h, d)
          == Get(s.past.counted, h, d) + Get(s.past.surplus, h, d)
      && Waiting(s, h, d) + Growth(table, s, i, d) + Lost(s, h, d) >= Get(s.past.counted, h, d)
      && (Waiting(s, h, d) + Growth(table, s, i, d) >= Get(s.past.counted, h, d) <==>
            Lost(s, h, d) <= Get(s.past.surplus, h, d))
  {
    Conserved(table, actions, table[i].hash, d);
  }

  // ---------- runs without removals, runs without ambiguous failures ----------

  ghost predicate NoAmbiguity(actions: seq<Action>) {
    forall a | a in actions :: a.Flush? ==> a.outcome != FailedButApplied
  }

  ghost predicate NoRemoval(actions: seq<Action>) {
    forall a | a in actions :: !a.Remove?
  }

  lemma SurplusSame(s: State, a: Action)
    requires !(a.Flush? && a.outcome == FailedButApplied)
    ensures Do(s, a).past.surplus == s.past.surplus
  {
    if a.Flush? {
      FlushSurplus(s, a.batch, a.outcome);
    } else {
      OthersSurplus(s, a);
    }
  }

  lemma FlushSurplus(s: State, batch: seq<Entry>, outcome: Outcome)
    requires outcome != FailedButApplied
    ensures DoFlush(s, batch, outcome).past.surplus == s.past.surplus
  {
  }

  lemma OthersSurplus(s: State, a: Action)
    requires !a.Flush?
    ensures Do(s, a).past.surplus == s.past.surplus
  {
  }

  lemma {:induction false} NoSurplus(s: State, actions: seq<Action>)
    requires NoAmbiguity(actions)
    ensures Run(s, actions).past.surplus == s.past.surplus
    decreases |actions|
  {
    if actions != [] {
      var a := actions[0];
      assert a in actions;
      SurplusSame(s, a);
      NoSurplus(Do(s, a), actions[1..]);
    }
  }

  /** This batch takes effect, reports failure, and names the user with bytes pending for it. */
  ghost predicate Doubles(s: State, a: Action, h: Hash, d: Direction) {
    && a.Flush? && a.outcome == FailedButApplied && Sendable(s.pending, a.batch)
    && h in HashSet(a.batch) && Get(s.pending, h, d) > 0
  }

  /** Some batch of the run does. */
  ghost predicate Doubled(s: State, actions: seq<Action>, h: Hash, d: Direction)
    decreases |actions|
  {
    actions != [] && (Doubles(s, actions[0], h, d) || Doubled(Do(s, actions[0]), actions[1..], h, d))
  }

  lemma SurplusStep(s: State, a: Action, h: Hash, d: Direction)
    requires Positive(s)
    ensures var before, after := Get(s.past.surplus, h, d), Get(Do(s, a).past.surplus, h, d);
      if Doubles(s, a, h, d) then after > before else after == before
  {
    match a
    case Flush(batch, outcome) =>
      if outcome == FailedButApplied {
        AmbiguousStep(s, batch, h, d);
      } else {
        FlushSurplus(s, batch, outcome);
      }
    case _ => OthersSurplus(s, a);
  }

  lemma AmbiguousStep(s: State, batch: seq<Entry>, h: Hash, d: Direction)
    requires Positive(s)
    ensures Get(DoFlush(s, batch, FailedButApplied).past.surplus, h, d) == Get(s.past.surplus, h, d)
      + if Sendable(s.pending, batch) && h in HashSet(batch) then Get(s.pending, h, d) else 0
    ensures Get(s.pending, h, d) >= 0
  {
    if Sendable(s.pending, batch) {
      PutAllGet(s.past.surplus, Due(s.pending, HashSet(batch)), h, d);
    }
  }

  /** The surplus of a user grows over a run if and only if an ambiguous batch named it with bytes pending. */
  lemma {:induction false} SurplusExactly(s: State, actions: seq<Action>, h: Hash, d: Direction)
    requires Positive(s) && Links(s)
    ensures var before, after := Get(s.past.surplus, h, d), Get(Run(s, actions).past.surplus, h, d);
      if Doubled(s, actions, h, d) then after > before else after == before
    decreases |actions|
  {
    if actions != [] {
      SurplusStep(s, actions[0], h, d);
      PositiveKept(s, actions[0]);
      LinksKept(s, actions[0]);
      SurplusExactly(Do(s, actions[0]), actions[1..], h, d);
    }
  }

  /** This step stores a new object over a registered one. */
  predicate Replaces(s: State, a: Action) {
    a.Store? && a.call in s.calls && s.calls[a.call].Addition? && s.calls[a.call].hash in s.cache.registry
  }

  /** No store of the run replaces a registered object. */
  ghost predicate ReplacesNone(s: State, actions: seq<Action>)
    decreases |actions|
  {
    actions == [] || (!Replaces(s, actions[0]) && ReplacesNone(Do(s, actions[0]), actions[1..]))
  }

  /** No removal has begun: every object is registered and nothing was dropped. */
  ghost predicate AllRegistered(s: State) {
    && (forall c :: !Removing(s.calls, c)) && s.past.dropped == map[]
    && forall o | 0 <= o < |s.cache.objects| :: Registered(s.cache, o)
  }

  lemma StoreKeepsAll(s: State, call: int)
    requires AllRegistered(s) && Links(s) && !Replaces(s, Store(call))
    ensures AllRegistered(DoStore(s, call))
  {
    var t := DoStore(s, call);
    forall o | 0 <= o < |t.cache.objects|
      ensures Registered(t.cache, o)
    {
      if o < |s.cache.objects| {
        assert Registered(s.cache, o);
      }
    }
    forall c
      ensures !Removing(t.calls, c)
    {
      assert !Removing(s.calls, c);
    }
  }

  lemma AddKeepsAll(s: State, call: int, h: Hash)
    requires AllRegistered(s)
    ensures AllRegistered(DoAdd(s, call, h))
  {
    var t := DoAdd(s, call, h);
    forall c
      ensures !Removing(t.calls, c)
    {
      assert !Removing(s.calls, c);
    }
  }

  lemma FollowsKeepsAll(s: State, t: State)
    requires AllRegistered(s) && Follows(s, t) && t.past.dropped == s.past.dropped
        && |t.cache.objects| == |s.cache.objects|
    ensures AllRegistered(t)
  {
    forall o | 0 <= o < |t.cache.objects|
      ensures Registered(t.cache, o)
    {
      assert Registered(s.cache, o);
    }
  }

  lemma AllKept(s: State, a: Action)
    requires AllRegistered(s) && Links(s) && !a.Remove? && !Replaces(s, a)
    ensures AllRegistered(Do(s, a))
  {
    match a
    case Count(o, d, n) => CountFollows(s, o, d, n); FollowsKeepsAll(s, DoCount(s, o, d, n));
    case Limit(row) => LimitFollows(s, row); FollowsKeepsAll(s, DoLimit(s, row));
    case TakeSent(o) => TakeSentFollows(s, o); FollowsKeepsAll(s, DoTakeSent(s, o));
    case TakeRecv => TakeRecvFollows(s); FollowsKeepsAll(s, DoTakeRecv(s));
    case Merge => MergeFrame(s); SameUsersFollow(s, DoMerge(s)); FollowsKeepsAll(s, DoMerge(s));
    case Flush(batch, outcome) =>
      FlushFrame(s, batch, outcome);
      SameUsersFollow(s, DoFlush(s, batch, outcome));
      FollowsKeepsAll(s, DoFlush(s, batch, outcome));
    case Add(call, h) => AddKeepsAll(s, call, h);
    case Store(call) => StoreKeepsAll(s, call);
    case Drop(call) => assert !Removing(s.calls, call);
    case Unregister(call) => assert !Removing(s.calls, call);
    case _ =>
  }

  lemma {:induction false} AllOverRuns(s: State, actions: seq<Action>)
    requires AllRegistered(s) && Links(s) && NoRemoval(actions) && ReplacesNone(s, actions)
    ensures AllRegistered(Run(s, actions))
    decreases |actions|
  {
    if actions != [] {
      var a := actions[0];
      assert a in actions;
      AllKept(s, a);
      LinksKept(s, a);
      AllOverRuns(Do(s, a), actions[1..]);
    }
  }

  lemma {:induction false} NoOrphans(s: State, n: nat, h: Hash, d: Direction)
    requires AllRegistered(s) && n <= |s.cache.objects|
    ensures OrphanedUpTo(s, n, h, d) == 0
    decreases n
  {
    if n > 0 {
      NoOrphans(s, n - 1, h, d);
      assert Registered(s.cache, n - 1);
    }
  }

  /** Without a removal, and if no store replaces a registered object, nothing is lost. */
  lemma NothingLost(table: seq<Row>, actions: seq<Action>, h: Hash, d: Direction)
    requires NoRemoval(actions) && ReplacesNone(Start(table), actions)
    ensures Lost(Run(Start(table), actions), h, d) == 0
  {
    StartPositive(table);
    AllOverRuns(Start(table), actions);
    NoOrphans(Run(Start(table), actions), |Run(Start(table), actions).cache.objects|, h, d);
  }

  /** Without removals, replacements and ambiguous failures every byte counted is in exactly one place. */
  lemma ExactlyOnce(table: seq<Row>, actions: seq<Action>, i: nat, d: Direction)
    requires NoAmbiguity(actions) && NoRemoval(actions) && ReplacesNone(Start(table), actions) && i < |table|
    ensures var s := Run(Start(table), actions);
      i < |s.table| && Waiting(s, table[i].hash, d) + Growth(table, s, i, d) == Get(s.past.counted, table[i].hash, d)
  {
    AtLeastOnce(table, actions, i, d);
    NoSurplus(Start(table), actions);
    NothingLost(table, actions, table[i].hash, d);
  }

  // ---------- what a removal loses ----------

  /** The next step of the collector can take this counter. */
  predicate CollectsNext(s: State, o: int, d: Direction) {
    if d == Sent then o in s.todo && s.hand.Nothing? else s.hand.TookSent? && s.hand.who == o
  }

  lemma FollowsUnreachable(s: State, t: State, o: int, d: Direction)
    requires Exists(s, o) && !Reachable(s, o, d) && Follows(s, t)
    requires t.hand.TookSent? && d == Recv && t.hand.who == o ==> o in s.todo || s.hand == t.hand
    ensures Exists(t, o) && !Reachable(t, o, d)
  {
  }

  lemma AddUnreachable(s: State, call: int, h: Hash, o: int, d: Direction)
    requires Exists(s, o) && !Reachable(s, o, d)
    ensures Exists(DoAdd(s, call, h), o) && !Reachable(DoAdd(s, call, h), o, d)
  {
  }

  lemma StoreUnreachable(s: State, call: int, o: int, d: Direction)
    requires Links(s) && Exists(s, o) && !Reachable(s, o, d)
    ensures Exists(DoStore(s, call), o) && !Reachable(DoStore(s, call), o, d)
  {
  }

  lemma RemoveUnreachable(s: State, call: int, h: Hash, o: int, d: Direction)
    requires Exists(s, o) && !Reachable(s, o, d)
    ensures Exists(DoRemove(s, call, h), o) && !Reachable(DoRemove(s, call, h), o, d)
  {
  }

  lemma DropUnreachable(s: State, call: int, o: int, d: Direction)
    requires Exists(s, o) && !Reachable(s, o, d)
    ensures Exists(DoDrop(s, call), o) && !Reachable(DoDrop(s, call), o, d)
  {
  }

  lemma UnregisterUnreachable(s: State, call: int, o: int, d: Direction)
    requires Exists(s, o) && !Reachable(s, o, d)
    ensures Exists(DoUnregister(s, call), o) && !Reachable(DoUnregister(s, call), o, d)
  {
  }

  lemma ListUnreachable(s: State, p: int, o: int, d: Direction)
    requires Exists(s, o) && !Reachable(s, o, d)
    ensures Exists(DoList(s, p), o) && !Reachable(DoList(s, p), o, d)
  {
  }

  /** A counter the collector cannot come to stays out of its reach. */
  lemma UnreachableKept(s: State, a: Action, o: int, d: Direction)
    requires Links(s) && Exists(s, o) && !Reachable(s, o, d)
    ensures Exists(Do(s, a), o) && !Reachable(Do(s, a), o, d)
  {
    match a
    case Count(p, e, n) => CountFollows(s, p, e, n); FollowsUnreachable(s, DoCount(s, p, e, n), o, d);
    case Limit(row) => LimitFollows(s, row); FollowsUnreachable(s, DoLimit(s, row), o, d);
    case TakeSent(p) => TakeSentFollows(s, p); FollowsUnreachable(s, DoTakeSent(s, p), o, d);
    case TakeRecv => TakeRecvFollows(s); FollowsUnreachable(s, DoTakeRecv(s), o, d);
    case Merge => MergeFrame(s); SameUsersFollow(s, DoMerge(s)); FollowsUnreachable(s, DoMerge(s), o, d);
    case Flush(batch, outcome) =>
      FlushFrame(s, batch, outcome);
      SameUsersFollow(s, DoFlush(s, batch, outcome));
      FollowsUnreachable(s, DoFlush(s, batch, outcome), o, d);
    case Add(call, h) => AddUnreachable(s, call, h, o, d);
    case Store(call) => StoreUnreachable(s, call, o, d);
    case Remove(call, h) => RemoveUnreachable(s, call, h, o, d);
    case Drop(call) => DropUnreachable(s, call, o, d);
    case Unregister(call) => UnregisterUnreachable(s, call, o, d);
    case List(p) => ListUnreachable(s, p, o, d);
  }

  lemma {:induction false} UnreachableForEver(s: State, actions: seq<Action>, o: int, d: Direction)
    requires Links(s) && Exists(s, o) && !Reachable(s, o, d)
    ensures Exists(Run(s, actions), o) && !Reachable(Run(s, actions), o, d)
    decreases |actions|
  {
    if actions != [] {
      UnreachableKept(s, actions[0], o, d);
      LinksKept(s, actions[0]);
      UnreachableForEver(Do(s, actions[0]), actions[1..], o, d);
    }
  }

  /** The collector finishes what it has in hand. */
  lemma HandSettles(s: State)
    requires HandValid(s)
    ensures var t := DoMerge(DoTakeRecv(s)); t.hand.Nothing? && t.todo == s.todo
  {
  }

  lemma SettlingFollows(s: State)
    ensures Follows(s, DoMerge(DoTakeRecv(s)))
  {
    var t := DoTakeRecv(s);
    TakeRecvFollows(s);
    MergeFrame(t);
    SameUsersFollow(t, DoMerge(t));
  }

  /** Then it lists the user, if it is not on the list yet. */
  function Listing(o: int): seq<Action> {
    [TakeRecv, Merge] + [List(o)]
  }

  lemma ListingRun(s: State, o: int)
    ensures Run(s, Listing(o)) == DoList(DoMerge(DoTakeRecv(s)), o)
  {
    TwoSteps(s, TakeRecv, Merge);
    RunSnoc(s, [TakeRecv, Merge], List(o));
  }

  /** After that the collector has empty hands and the user on its list. */
  lemma ListingLists(s: State, o: int)
    requires HandValid(s) && Exists(s, o) && (Registered(s.cache, o) || o in s.todo)
    ensures var t := DoList(DoMerge(DoTakeRecv(s)), o);
      Exists(t, o) && o in t.todo && t.hand.Nothing? && t.cache == DoMerge(DoTakeRecv(s)).cache
  {
    HandSettles(s);
    SettlingFollows(s);
  }

  lemma ListsNext(s: State, o: int)
    requires HandValid(s) && Exists(s, o) && (Registered(s.cache, o) || o in s.todo)
    ensures CollectsNext(Run(s, Listing(o)), o, Sent)
  {
    ListingRun(s, o);
    ListingLists(s, o);
  }

  lemma FirstSwap(s: State, o: int)
    requires Exists(s, o) && o in s.todo && s.hand.Nothing?
    ensures CollectsNext(DoTakeSent(s, o), o, Recv)
  {
  }

  lemma TakesNext(s: State, o: int)
    requires HandValid(s) && Exists(s, o) && (Registered(s.cache, o) || o in s.todo)
    ensures CollectsNext(Run(s, Listing(o) + [TakeSent(o)]), o, Recv)
  {
    ListingRun(s, o);
    ListingLists(s, o);
    RunSnoc(s, Listing(o), TakeSent(o));
    FirstSwap(Run(s, Listing(o)), o);
  }

  /** This continuation leads to where the collector takes the counter. */
  ghost predicate LeadsTo(s: State, actions: seq<Action>, o: int, d: Direction) {
    CollectsNext(Run(s, actions), o, d)
  }

  /**
    The bytes of a counter can still be collected in some continuation if and only if its
    user is registered, or listed, or in the hand of the collector between the two swaps.
    All other bytes counted on it, now or later, are lost for the table.
  */
  lemma CollectableExactly(s: State, o: int, d: Direction)
    requires Links(s) && HandValid(s) && Exists(s, o)
    ensures Reachable(s, o, d) <==> exists actions :: LeadsTo(s, actions, o, d)
  {
    if !Reachable(s, o, d) {
      forall actions
        ensures !LeadsTo(s, actions, o, d)
      {
        UnreachableForEver(s, actions, o, d);
      }
    } else if Registered(s.cache, o) || o in s.todo {
      if d == Sent {
        ListsNext(s, o);
        assert LeadsTo(s, Listing(o), o, d);
      } else {
        TakesNext(s, o);
        assert LeadsTo(s, Listing(o) + [TakeSent(o)], o, d);
      }
    } else {
      assert LeadsTo(s, [], o, d);
    }
  }

  // ---------- from the counter to the row ----------

  function CounterOf(s: State, o: int, d: Direction): int {
    if Exists(s, o) then s.cache.objects[o].counter.At(d) else 0
  }

  /** A batch of one user. */
  lemma FlushOne(s: State, h: Hash, d: Direction)
    requires h in s.pending
    ensures var t := Do(s, Flush([Entry(h, s.pending[h])], Success));
      Get(t.past.flushed, h, d) == Get(s.past.flushed, h, d) + Get(s.pending, h, d)
  {
    var batch := [Entry(h, s.pending[h])];
    assert batch[0].hash == h;
    assert Sendable(s.pending, batch);
    var due := Due(s.pending, HashSet(batch));
    PutAllGet(s.past.flushed, due, h, d);
  }

  /** Taking a counter that is not empty makes its bytes pending. */
  lemma CollectPends(s: State, o: int, d: Direction)
    requires Positive(s) && Exists(s, o) && o in s.todo && s.hand.Nothing? && CounterOf(s, o, d) > 0
    ensures var t, h := Run(s, [TakeSent(o), TakeRecv, Merge]), s.cache.objects[o].hash;
      h in t.pending && Get(t.pending, h, d) >= CounterOf(s, o, d) && t.past == s.past
  {
    var u := s.cache.objects[o];
    CollectOne(s, o);
    assert !u.counter.IsZero();
    PutGet(s.pending, u.hash, u.counter, u.hash, d);
    assert Get(s.pending, u.hash, d) >= 0;
  }

  lemma SecondSwapPends(s: State)
    requires Positive(s) && s.hand.TookSent? && Exists(s, s.hand.who) && s.cache.objects[s.hand.who].counter.recv > 0
    ensures var u, t := s.cache.objects[s.hand.who], DoMerge(DoTakeRecv(s));
      u.hash in t.pending && Get(t.pending, u.hash, Recv) >= u.counter.recv && t.past == s.past
  {
    var u := s.cache.objects[s.hand.who];
    PutGet(s.pending, u.hash, Delta(s.hand.sent, u.counter.recv), u.hash, Recv);
    assert Get(s.pending, u.hash, Recv) >= 0;
  }

  lemma SettlingKeeps(s: State, o: int, d: Direction)
    requires HandValid(s) && Exists(s, o) && !(d == Recv && s.hand.TookSent? && s.hand.who == o)
    ensures var t := DoMerge(DoTakeRecv(s));
      Exists(t, o) && CounterOf(t, o, d) == CounterOf(s, o, d) && t.past == s.past
  {
  }

  /** From every reachable counter there is a continuation that writes its bytes to the rows of its user. */
  lemma ReachesTable(s: State, o: int, d: Direction) returns (actions: seq<Action>)
    requires Links(s) && HandValid(s) && Positive(s) && Exists(s, o) && Reachable(s, o, d)
    ensures var h := s.cache.objects[o].hash;
      Get(Run(s, actions).past.flushed, h, d) >= Get(s.past.flushed, h, d) + CounterOf(s, o, d)
  {
    var h := s.cache.objects[o].hash;
    var before;
    if CounterOf(s, o, d) == 0 {
      return [];
    } else if d == Recv && s.hand.TookSent? && s.hand.who == o {
      before := [TakeRecv, Merge];
      TwoSteps(s, TakeRecv, Merge);
      SecondSwapPends(s);
    } else {
      before := Listing(o) + [TakeSent(o), TakeRecv, Merge];
      ListedCollects(s, o, d);
    }
    var t := Run(s, before);
    actions := before + [Flush([Entry(h, t.pending[h])], Success)];
    RunSnoc(s, before, Flush([Entry(h, t.pending[h])], Success));
    FlushOne(t, h, d);
  }

  lemma ListingKeeps(s: State, o: int, d: Direction)
    requires HandValid(s) && Exists(s, o) && (Registered(s.cache, o) || o in s.todo)
    requires !(d == Recv && s.hand.TookSent? && s.hand.who == o)
    ensures var t := DoList(DoMerge(DoTakeRecv(s)), o);
      && Exists(t, o) && o in t.todo && t.hand.Nothing? && t.past == s.past
      && t.cache.objects[o].hash == s.cache.objects[o].hash && CounterOf(t, o, d) == CounterOf(s, o, d)
  {
    ListingLists(s, o);
    SettlingKeeps(s, o, d);
    SettlingFollows(s);
  }

  lemma ListedCollects(s: State, o: int, d: Direction)
    requires Links(s) && HandValid(s) && Positive(s) && Exists(s, o) && (Registered(s.cache, o) || o in s.todo)
    requires !(d == Recv && s.hand.TookSent? && s.hand.who == o) && CounterOf(s, o, d) > 0
    ensures var t, h := Run(s, Listing(o) + [TakeSent(o), TakeRecv, Merge]), s.cache.objects[o].hash;
      h in t.pending && Get(t.pending, h, d) >= CounterOf(s, o, d) && t.past == s.past
  {
    ListingRun(s, o);
    ListingKeeps(s, o, d);
    PositiveOverRuns(s, Listing(o));
    CollectPends(Run(s, Listing(o)), o, d);
    RunAppend(s, Listing(o), [TakeSent(o), TakeRecv, Merge]);
  }

  // ---------- how much a removal loses ----------

  /** This step empties the counter: a swap of the collector or of a removal. */
  predicate Takes(s: State, a: Action, o: int, d: Direction) {
    match a
    case TakeSent(p) => p == o && d == Sent && o in s.todo && s.hand.Nothing?
    case TakeRecv => d == Recv && s.hand.TookSent? && s.hand.who == o
    case Drop(call) => Drops(s, call, o, d)
    case _ => false
  }

  predicate Drops(s: State, call: int, o: int, d: Direction) {
    Removing(s.calls, call) && s.calls[call].who == o && s.calls[call].emptied < 2 && Emptying(s.calls[call]) == d
  }

  lemma CountCounter(s: State, p: int, e: Direction, n: nat, o: int, d: Direction)
    requires Exists(s, o)
    ensures CounterOf(DoCount(s, p, e, n), o, d) == CounterOf(s, o, d) + if p == o && e == d then n else 0
  {
  }

  lemma DropCounter(s: State, call: int, o: int, d: Direction)
    requires Exists(s, o)
    ensures CounterOf(DoDrop(s, call), o, d) == if Drops(s, call, o, d) then 0 else CounterOf(s, o, d)
  {
  }

  lemma TakeCounter(s: State, p: int, o: int, d: Direction)
    requires Exists(s, o)
    ensures CounterOf(DoTakeSent(s, p), o, d) == if Takes(s, TakeSent(p), o, d) then 0 else CounterOf(s, o, d)
    ensures CounterOf(DoTakeRecv(s), o, d) == if Takes(s, TakeRecv, o, d) then 0 else CounterOf(s, o, d)
  {
  }

  lemma LimitCounter(s: State, row: Row, o: int, d: Direction)
    requires Exists(s, o)
    ensures CounterOf(DoLimit(s, row), o, d) == CounterOf(s, o, d)
  {
  }

  lemma OthersCounter(s: State, call: int, h: Hash, p: int, o: int, d: Direction)
    requires Exists(s, o)
    ensures CounterOf(DoAdd(s, call, h), o, d) == CounterOf(s, o, d)
    ensures CounterOf(DoStore(s, call), o, d) == CounterOf(s, o, d)
    ensures CounterOf(DoRemove(s, call, h), o, d) == CounterOf(s, o, d)
    ensures CounterOf(DoUnregister(s, call), o, d) == CounterOf(s, o, d)
    ensures CounterOf(DoList(s, p), o, d) == CounterOf(s, o, d)
  {
  }

  /** A step adds what it counts on the counter, empties it, or leaves it alone. */
  lemma CounterStep(s: State, a: Action, o: int, d: Direction)
    requires Exists(s, o)
    ensures Exists(Do(s, a), o)
    ensures CounterOf(Do(s, a), o, d) ==
      if Takes(s, a, o, d) then 0 else CounterOf(s, o, d) + if a.Count? && a.who == o && a.dir == d then a.n else 0
  {
    match a
    case Count(p, e, n) => CountCounter(s, p, e, n, o, d);
    case Drop(call) => DropCounter(s, call, o, d);
    case TakeSent(p) => TakeCounter(s, p, o, d);
    case TakeRecv => TakeCounter(s, 0, o, d);
    case Limit(row) => LimitCounter(s, row, o, d);
    case Merge => MergeFrame(s);
    case Flush(batch, outcome) => FlushFrame(s, batch, outcome);
    case Add(call, h) => OthersCounter(s, call, h, 0, o, d);
    case Store(call) => OthersCounter(s, call, Hash(""), 0, o, d);
    case Remove(call, h) => OthersCounter(s, call, h, 0, o, d);
    case Unregister(call) => OthersCounter(s, call, Hash(""), 0, o, d);
    case List(p) => OthersCounter(s, 0, Hash(""), p, o, d);
  }

  /** The bytes a schedule counts on one counter. */
  function CountedOn(actions: seq<Action>, o: int, d: Direction): nat {
    if actions == [] then 0
    else
      var a := actions[0];
      (if a.Count? && a.who == o && a.dir == d then a.n else 0) + CountedOn(actions[1..], o, d)
  }

  ghost predicate Undisturbed(s: State, actions: seq<Action>, o: int, d: Direction)
    decreases |actions|
  {
    actions == [] || (!Takes(s, actions[0], o, d) && Undisturbed(Do(s, actions[0]), actions[1..], o, d))
  }

  lemma {:induction false} CounterSince(s: State, actions: seq<Action>, o: int, d: Direction)
    requires Exists(s, o) && Undisturbed(s, actions, o, d)
    ensures Exists(Run(s, actions), o)
    ensures CounterOf(Run(s, actions), o, d) == CounterOf(s, o, d) + CountedOn(actions, o, d)
    decreases |actions|
  {
    if actions != [] {
      CounterStep(s, actions[0], o, d);
      CounterSince(Do(s, actions[0]), actions[1..], o, d);
    }
  }

  /**
    A removal drops exactly the bytes counted since the counter was last emptied: since the
    last collect, if no other removal came between.
  */
  lemma DropsSinceCollect(s: State, take: Action, actions: seq<Action>, call: int, o: int, d: Direction)
    requires Exists(s, o) && Takes(s, take, o, d) && Undisturbed(Do(s, take), actions, o, d)
    requires Drops(Run(Do(s, take), actions), call, o, d)
    ensures var t := Run(Do(s, take), actions);
      Exists(t, o) && Get(Do(t, Drop(call)).past.dropped, t.cache.objects[o].hash, d)
         == Get(t.past.dropped, t.cache.objects[o].hash, d) + CountedOn(actions, o, d)
  {
    CounterStep(s, take, o, d);
    CounterSince(Do(s, take), actions, o, d);
    var t := Run(Do(s, take), actions);
    PutGet(t.past.dropped, t.cache.objects[o].hash, Only(d, CounterOf(t, o, d)), t.cache.objects[o].hash, d);
  }

  lemma {:induction false} LiveSame(s: State, t: State, n: nat, h: Hash, d: Direction)
    requires n <= |s.cache.objects| && n <= |t.cache.objects|
    requires forall i | 0 <= i < n :: LivePart(t, i, h, d) == LivePart(s, i, h, d)
    ensures LiveUpTo(t, n, h, d) == LiveUpTo(s, n, h, d)
    decreases n
  {
    if n > 0 {
      LiveSame(s, t, n - 1, h, d);
    }
  }

  /** Traffic that still arrives on a removed user is lost, byte for byte. */
  lemma LateTraffic(s: State, o: int, d: Direction, n: nat)
    requires Exists(s, o) && !Reachable(s, o, d)
    ensures var t, h := Do(s, Count(o, d, n)), s.cache.objects[o].hash;
      Lost(t, h, d) == Lost(s, h, d) + n && Waiting(t, h, d) == Waiting(s, h, d)
  {
    var t, u, h := DoCount(s, o, d, n), s.cache.objects[o], s.cache.objects[o].hash;
    StoredUpdate(s.cache.objects, o, u.(counter := u.counter.With(d, u.counter.At(d) + n)), h, d);
    StoredSplits(s, |s.cache.objects|, h, d);
    StoredSplits(t, |t.cache.objects|, h, d);
    CountFollows(s, o, d, n);
    forall i | 0 <= i < |s.cache.objects|
      ensures LivePart(t, i, h, d) == LivePart(s, i, h, d)
    {
    }
    LiveSame(s, t, |s.cache.objects|, h, d);
  }

  lemma {:induction false} OrphansButOne(s: State, t: State, n: nat, o: int, h: Hash, d: Direction)
    requires n <= |s.cache.objects| && n <= |t.cache.objects| && Exists(s, o) && Exists(t, o)
    requires forall i | 0 <= i < n && i != o :: OrphanPart(t, i, h, d) == OrphanPart(s, i, h, d)
    ensures OrphanedUpTo(t, n, h, d) == OrphanedUpTo(s, n, h, d)
      + if o < n then OrphanPart(t, o, h, d) - OrphanPart(s, o, h, d) else 0
    decreases n
  {
    if n > 0 {
      OrphansButOne(s, t, n - 1, o, h, d);
    }
  }

  /** A store changes the reach of the collector only for the object it replaces. */
  lemma ReplacedReach(s: State, call: int, i: int, h: Hash, d: Direction)
    requires Links(s) && Replaces(s, Store(call)) && Exists(s, i) && s.cache.registry[s.calls[call].hash] != i
    ensures Exists(DoStore(s, call), i) && OrphanPart(DoStore(s, call), i, h, d) == OrphanPart(s, i, h, d)
  {
  }

  /** The new object itself holds nothing. */
  lemma NewHoldsNothing(s: State, call: int, h: Hash, d: Direction)
    requires Replaces(s, Store(call))
    ensures var t, n := DoStore(s, call), |s.cache.objects|;
      |t.cache.objects| == n + 1 && OrphanedUpTo(t, n + 1, h, d) == OrphanedUpTo(t, n, h, d)
  {
  }

  /**
    A store that replaces a registered object loses exactly the bytes on that object, unless
    the collector already has it on its list or between its two swaps.
  */
  lemma ReplacementLoses(s: State, call: int, d: Direction)
    requires Links(s) && Replaces(s, Store(call))
    ensures var h := s.calls[call].hash;
      var o, t := s.cache.registry[h], Do(s, Store(call));
      Exists(s, o) && Exists(t, o) &&
      Lost(t, h, d) == Lost(s, h, d) + if Reachable(t, o, d) then 0 else CounterOf(s, o, d)
  {
    var h, t, n := s.calls[call].hash, DoStore(s, call), |s.cache.objects|;
    var o := s.cache.registry[h];
    forall i | 0 <= i < n && i != o
      ensures OrphanPart(t, i, h, d) == OrphanPart(s, i, h, d)
    {
      ReplacedReach(s, call, i, h, d);
    }
    OrphansButOne(s, t, n, o, h, d);
    NewHoldsNothing(s, call, h, d);
  }

  /** Two overlapping additions of one user, with traffic on the object that the first one stored. */
  function Overlap(h: Hash, n: nat): seq<Action> {
    [Add(0, h), Add(1, h), Store(0)] + [Count(0, Sent, n)]
  }

  lemma OverlapRun(table: seq<Row>, h: Hash, n: nat)
    ensures var s := Run(Start(table), Overlap(h, n));
      && Replaces(s, Store(1)) && s.calls[1].hash == h && s.cache.registry[h] == 0
      && Exists(s, 0) && CounterOf(s, 0, Sent) == n && s.todo == {} && s.hand.Nothing?
      && s.past.dropped == map[] && AllRegistered(s)
  {
    var s0 := Start(table);
    RunThree(s0, Add(0, h), Add(1, h), Store(0));
    RunSnoc(s0, [Add(0, h), Add(1, h), Store(0)], Count(0, Sent, n));
    var s2 := DoAdd(DoAdd(s0, 0, h), 1, h);
    assert s2.calls[0] == Addition(h) && s2.calls[1] == Addition(h) && s2.cache == EMPTY;
    var s3 := DoStore(s2, 0);
    assert s3.calls[1] == Addition(h) && s3.cache.objects == [NewUser(h)] && s3.cache.registry == map[h := 0];
    assert Run(s0, Overlap(h, n)) == DoCount(s3, 0, Sent, n);
  }

  /** The second store loses them all. */
  lemma OverlapLoses(table: seq<Row>, h: Hash, n: nat)
    ensures Lost(Run(Start(table), Overlap(h, n) + [Store(1)]), h, Sent) == n
  {
    var s := Run(Start(table), Overlap(h, n));
    OverlapRun(table, h, n);
    NoOrphans(s, |s.cache.objects|, h, Sent);
    StartPositive(table);
    PositiveOverRuns(Start(table), Overlap(h, n));
    ReplacementLoses(s, 1, Sent);
    RunSnoc(Start(table), Overlap(h, n), Store(1));
  }

  // ---------- lost bytes stay lost ----------

  lemma {:induction false} OrphansGrow(s: State, t: State, n: nat, h: Hash, d: Direction, o: int, x: int)
    requires n <= |s.cache.objects| && n <= |t.cache.objects| && x >= 0
    requires forall i | 0 <= i < n :: OrphanPart(t, i, h, d) >= OrphanPart(s, i, h, d) - if i == o then x else 0
    ensures OrphanedUpTo(t, n, h, d) >= OrphanedUpTo(s, n, h, d) - if 0 <= o < n then x else 0
    decreases n
  {
    if n > 0 {
      OrphansGrow(s, t, n - 1, h, d, o, x);
    }
  }

  lemma {:induction false} MoreOrphans(s: State, m: nat, n: nat, h: Hash, d: Direction)
    requires CountersOk(s) && m <= n <= |s.cache.objects|
    ensures OrphanedUpTo(s, n, h, d) >= OrphanedUpTo(s, m, h, d)
    decreases n
  {
    if m < n {
      MoreOrphans(s, m, n - 1, h, d);
    }
  }

  /** What a step drops of a user's bytes. */
  function Amount(s: State, a: Action, h: Hash, d: Direction): int {
    if a.Drop? && Removing(s.calls, a.call) then
      var o := s.calls[a.call].who;
      if Exists(s, o) && Drops(s, a.call, o, d) && s.cache.objects[o].hash == h then CounterOf(s, o, d) else 0
    else 0
  }

  lemma DroppedStep(s: State, a: Action, h: Hash, d: Direction)
    ensures Get(Do(s, a).past.dropped, h, d) == Get(s.past.dropped, h, d) + Amount(s, a, h, d)
  {
    match a
    case Drop(call) =>
      if DoDrop(s, call) != s {
        var r := s.calls[call];
        var u := s.cache.objects[r.who];
        PutGet(s.past.dropped, u.hash, Only(Emptying(r), u.counter.At(Emptying(r))), h, d);
      }
    case Flush(batch, outcome) => FlushFrame(s, batch, outcome);
    case _ =>
  }

  lemma OrphanStep(s: State, a: Action, o: int, h: Hash, d: Direction)
    requires Links(s) && Positive(s) && Exists(s, o)
    ensures Exists(Do(s, a), o)
    ensures OrphanPart(Do(s, a), o, h, d) >= OrphanPart(s, o, h, d)
      - if a.Drop? && Removing(s.calls, a.call) && s.calls[a.call].who == o then Amount(s, a, h, d) else 0
  {
    CounterStep(s, a, o, d);
    LinksKept(s, a);
    PositiveKept(s, a);
    if !Reachable(s, o, d) {
      UnreachableKept(s, a, o, d);
    }
  }

  lemma LostStep(s: State, a: Action, h: Hash, d: Direction)
    requires Links(s) && Positive(s)
    ensures Lost(Do(s, a), h, d) >= Lost(s, h, d)
  {
    var t, n := Do(s, a), |s.cache.objects|;
    var o := if a.Drop? && Removing(s.calls, a.call) then s.calls[a.call].who else -1;
    LinksKept(s, a);
    PositiveKept(s, a);
    forall i | 0 <= i < n
      ensures OrphanPart(t, i, h, d) >= OrphanPart(s, i, h, d) - if i == o then Amount(s, a, h, d) else 0
    {
      OrphanStep(s, a, i, h, d);
    }
    DroppedStep(s, a, h, d);
    OrphansGrow(s, t, n, h, d, o, Amount(s, a, h, d));
    MoreOrphans(t, n, |t.cache.objects|, h, d);
  }

  /** Over every run the bytes lost for a user never become fewer. */
  lemma {:induction false} LostForEver(s: State, actions: seq<Action>, h: Hash, d: Direction)
    requires Links(s) && Positive(s)
    ensures Lost(Run(s, actions), h, d) >= Lost(s, h, d)
    decreases |actions|
  {
    if actions != [] {
      LostStep(s, actions[0], h, d);
      LinksKept(s, actions[0]);
      PositiveKept(s, actions[0]);
      LostForEver(Do(s, actions[0]), actions[1..], h, d);
    }
  }

  // ---------- no batch is sent again ----------

  /** No step of the run merges traffic of the named users into the buffer. */
  ghost predicate MergesNoneOf(s: State, actions: seq<Action>, names: set<Hash>)
    decreases |actions|
  {
    actions == [] ||
    (!(actions[0].Merge? && MergesInto(s, names)) && MergesNoneOf(Do(s, actions[0]), actions[1..], names))
  }

  predicate MergesInto(s: State, names: set<Hash>) {
    s.hand.TookBoth? && Exists(s, s.hand.who) && !s.hand.delta.IsZero() && s.cache.objects[s.hand.who].hash in names
  }

  lemma PendingStep(s: State, a: Action, names: set<Hash>)
    requires s.pending.Keys !! names && !(a.Merge? && MergesInto(s, names))
    ensures Do(s, a).pending.Keys !! names
  {
    match a
    case Flush(batch, outcome) =>
      assert DoFlush(s, batch, outcome).pending.Keys <= s.pending.Keys;
    case _ =>
  }

  lemma {:induction false} StaysOut(s: State, actions: seq<Action>, names: set<Hash>)
    requires s.pending.Keys !! names && MergesNoneOf(s, actions, names)
    ensures Run(s, actions).pending.Keys !! names
    decreases |actions|
  {
    if actions != [] {
      PendingStep(s, actions[0], names);
      StaysOut(Do(s, actions[0]), actions[1..], names);
    }
  }

  /**
    A batch that reported success is not sent again: over every later run, as long as the
    collector merges no new traffic of its users, no batch names any of them.
  */
  lemma SuccessNotResent(s: State, batch: seq<Entry>, actions: seq<Action>, later: seq<Entry>)
    requires Sendable(s.pending, batch)
    requires MergesNoneOf(Do(s, Flush(batch, Success)), actions, HashSet(batch))
    requires Sendable(Run(Do(s, Flush(batch, Success)), actions).pending, later)
    ensures HashSet(later) !! HashSet(batch)
  {
    var t := Do(s, Flush(batch, Success));
    StaysOut(t, actions, HashSet(batch));
    forall i | 0 <= i < |later|
      ensures later[i].hash !in HashSet(batch)
    {
      assert later[i] in later;
    }
  }
}
