/**
  What every step of the ledger keeps: the balance of all bytes, the links between registry,
  list, calls and objects, and the growth of the table.
*/
module LedgerInvariant {
  import opened Traffic
  import opened TrafficUpdate
  import opened UserCache
  import opened Ledger

  // ---------- every step keeps the balance ----------

  lemma CountBalanced(s: State, o: int, dir: Direction, n: nat, h: Hash, d: Direction)
    requires BalancedFor(s, h, d) && Exists(s, o)
    ensures BalancedFor(DoCount(s, o, dir, n), h, d)
  {
    var u := s.cache.objects[o];
    StoredUpdate(s.cache.objects, o, u.(counter := u.counter.With(dir, u.counter.At(dir) + n)), h, d);
    PutGet(s.past.counted, u.hash, Only(dir, n), h, d);
  }

  lemma DropBalanced(s: State, call: int, h: Hash, d: Direction)
    requires BalancedFor(s, h, d) && HandValid(s) && DoDrop(s, call) != s
    ensures BalancedFor(DoDrop(s, call), h, d)
  {
    var r := s.calls[call];
    var u, e := s.cache.objects[r.who], Emptying(r);
    StoredUpdate(s.cache.objects, r.who, u.(counter := u.counter.With(e, 0)), h, d);
    PutGet(s.past.dropped, u.hash, Only(e, u.counter.At(e)), h, d);
  }

  lemma TakeSentBalanced(s: State, o: int, h: Hash, d: Direction)
    requires BalancedFor(s, h, d)
    ensures BalancedFor(DoTakeSent(s, o), h, d)
  {
    if Exists(s, o) && o in s.todo && s.hand.Nothing? {
      var u := s.cache.objects[o];
      StoredUpdate(s.cache.objects, o, u.(counter := u.counter.With(Sent, 0)), h, d);
    }
  }

  lemma TakeRecvBalanced(s: State, h: Hash, d: Direction)
    requires BalancedFor(s, h, d)
    ensures BalancedFor(DoTakeRecv(s), h, d)
  {
    if s.hand.TookSent? && Exists(s, s.hand.who) {
      var u := s.cache.objects[s.hand.who];
      StoredUpdate(s.cache.objects, s.hand.who, u.(counter := u.counter.With(Recv, 0)), h, d);
    }
  }

  /** Merging moves bytes from the hand to the buffer and touches nothing else. */
  lemma MergeMoves(s: State, h: Hash, d: Direction)
    requires HandValid(s)
    ensures var t := DoMerge(s);
      && Get(t.pending, h, d) + Held(t, h, d) == Get(s.pending, h, d) + Held(s, h, d)
      && t == s.(hand := t.hand, pending := t.pending)
  {
    if s.hand.TookBoth? {
      PutGet(s.pending, s.cache.objects[s.hand.who].hash, s.hand.delta, h, d);
      assert s.hand.delta.IsZero() ==> s.hand.delta.At(d) == 0;
    }
  }

  lemma MergeBalanced(s: State, h: Hash, d: Direction)
    requires BalancedFor(s, h, d) && HandValid(s)
    ensures BalancedFor(DoMerge(s), h, d)
  {
    MergeMoves(s, h, d);
  }

  /** A batch that takes effect moves the same amount `x` of every user's bytes. */
  lemma FlushMoves(s: State, batch: seq<Entry>, outcome: Outcome, h: Hash, d: Direction) returns (x: int)
    requires Sendable(s.pending, batch) && outcome != Failed
    ensures var t := DoFlush(s, batch, outcome);
      && t == s.(table := t.table, pending := t.pending, past := t.past)
      && t.past == s.past.(flushed := t.past.flushed, surplus := t.past.surplus)
      && Get(t.past.flushed, h, d) == Get(s.past.flushed, h, d) + x
      && Get(t.pending, h, d) == Get(s.pending, h, d) - (if outcome == Success then x else 0)
      && Get(t.past.surplus, h, d) == Get(s.past.surplus, h, d) + (if outcome == Success then 0 else x)
  {
    var due := Due(s.pending, HashSet(batch));
    x := Get(due, h, d);
    PutAllGet(s.past.flushed, due, h, d);
    PutAllGet(s.past.surplus, due, h, d);
  }

  lemma FlushBalanced(s: State, batch: seq<Entry>, outcome: Outcome, h: Hash, d: Direction)
    requires BalancedFor(s, h, d) && Sendable(s.pending, batch) && outcome != Failed
    ensures BalancedFor(DoFlush(s, batch, outcome), h, d)
  {
    var x := FlushMoves(s, batch, outcome, h, d);
  }

  lemma StoreBalanced(s: State, call: int, h: Hash, d: Direction)
    requires BalancedFor(s, h, d) && HandValid(s)
    ensures BalancedFor(DoStore(s, call), h, d)
  {
    if call in s.calls && s.calls[call].Addition? {
      StoredExtend(s.cache.objects, NewUser(s.calls[call].hash), h, d);
    }
  }

  lemma LimitBalanced(s: State, row: Row, h: Hash, d: Direction)
    requires BalancedFor(s, h, d)
    ensures BalancedFor(DoLimit(s, row), h, d)
  {
    if s.cache.Valid() && row.hash in s.cache.registry {
      var o := s.cache.registry[row.hash];
      StoredUpdate(s.cache.objects, o, WithLimits(s.cache.objects[o], row), h, d);
    }
  }

  lemma BalancedKept(s: State, a: Action)
    requires Balanced(s) && HandValid(s)
    ensures Balanced(Do(s, a))
  {
    forall h, d
      ensures BalancedFor(Do(s, a), h, d)
    {
      assert BalancedFor(s, h, d);
      if Do(s, a) != s {
        match a
        case Count(o, dir, n) => CountBalanced(s, o, dir, n, h, d);
        case Drop(call) => DropBalanced(s, call, h, d);
        case TakeSent(o) => TakeSentBalanced(s, o, h, d);
        case TakeRecv => TakeRecvBalanced(s, h, d);
        case Merge => MergeBalanced(s, h, d);
        case Flush(batch, outcome) => FlushBalanced(s, batch, outcome, h, d);
        case Add(_, _) =>
        case Store(call) => StoreBalanced(s, call, h, d);
        case Remove(_, _) =>
        case Unregister(_) =>
        case List(_) =>
        case Limit(row) => LimitBalanced(s, row, h, d);
      }
    }
  }

  lemma HandKept(s: State, a: Action)
    requires HandValid(s)
    ensures HandValid(Do(s, a))
  {
  }

  /** Objects are only added, and keep their hash. */
  ghost predicate Grown(s: State, t: State) {
    && |s.cache.objects| <= |t.cache.objects|
    && forall o | 0 <= o < |s.cache.objects| :: t.cache.objects[o].hash == s.cache.objects[o].hash
  }

  /** The users differ in counters and limits only, and no more of them are listed. */
  ghost predicate Follows(s: State, t: State) {
    Grown(s, t) && t.cache.registry == s.cache.registry && t.todo <= s.todo && t.calls == s.calls
  }

  lemma CountFollows(s: State, o: int, d: Direction, n: nat)
    ensures Follows(s, DoCount(s, o, d, n))
  {
  }

  lemma DropLinks(s: State, call: int)
    requires Links(s)
    ensures Links(DoDrop(s, call)) && Grown(s, DoDrop(s, call))
  {
  }

  lemma LimitFollows(s: State, row: Row)
    ensures Follows(s, DoLimit(s, row))
  {
  }

  lemma TakeSentFollows(s: State, o: int)
    ensures Follows(s, DoTakeSent(s, o))
  {
  }

  lemma TakeRecvFollows(s: State)
    ensures Follows(s, DoTakeRecv(s))
  {
  }

  ghost predicate SameUsers(s: State, t: State) {
    t.cache == s.cache && t.todo == s.todo && t.calls == s.calls
  }

  lemma SameUsersFollow(s: State, t: State)
    requires SameUsers(s, t)
    ensures Follows(s, t)
  {
  }

  lemma MergeFrame(s: State)
    ensures SameUsers(s, DoMerge(s))
  {
  }

  lemma FlushFrame(s: State, batch: seq<Entry>, outcome: Outcome)
    ensures var t := DoFlush(s, batch, outcome);
      && SameUsers(s, t) && t.hand == s.hand
      && t == s.(table := t.table, pending := t.pending, past := t.past)
      && t.past == s.past.(flushed := t.past.flushed, surplus := t.past.surplus)
  {
  }

  lemma FollowsLinks(s: State, t: State)
    requires Links(s) && Follows(s, t)
    ensures Links(t)
  {
  }

  lemma AddLinks(s: State, call: int, h: Hash)
    requires Links(s)
    ensures Links(DoAdd(s, call, h)) && Grown(s, DoAdd(s, call, h))
  {
  }

  lemma StoreLinks(s: State, call: int)
    requires Links(s)
    ensures Links(DoStore(s, call)) && Grown(s, DoStore(s, call))
  {
  }

  lemma RemoveLinks(s: State, call: int, h: Hash)
    requires Links(s)
    ensures Links(DoRemove(s, call, h)) && Grown(s, DoRemove(s, call, h))
  {
  }

  lemma UnregisterLinks(s: State, call: int)
    requires Links(s)
    ensures Links(DoUnregister(s, call)) && Grown(s, DoUnregister(s, call))
  {
  }

  lemma ListLinks(s: State, o: int)
    requires Links(s)
    ensures Links(DoList(s, o)) && Grown(s, DoList(s, o))
  {
  }

  lemma LinksKept(s: State, a: Action)
    requires Links(s)
    ensures Links(Do(s, a)) && Grown(s, Do(s, a))
  {
    match a
    case Count(o, d, n) => CountFollows(s, o, d, n); FollowsLinks(s, DoCount(s, o, d, n));
    case Drop(call) => DropLinks(s, call);
    case Limit(row) => LimitFollows(s, row); FollowsLinks(s, DoLimit(s, row));
    case TakeSent(o) => TakeSentFollows(s, o); FollowsLinks(s, DoTakeSent(s, o));
    case TakeRecv => TakeRecvFollows(s); FollowsLinks(s, DoTakeRecv(s));
    case Merge => MergeFrame(s); SameUsersFollow(s, DoMerge(s)); FollowsLinks(s, DoMerge(s));
    case Flush(batch, outcome) =>
      FlushFrame(s, batch, outcome);
      SameUsersFollow(s, DoFlush(s, batch, outcome));
      FollowsLinks(s, DoFlush(s, batch, outcome));
    case Add(call, h) => AddLinks(s, call, h);
    case Store(call) => StoreLinks(s, call);
    case Remove(call, h) => RemoveLinks(s, call, h);
    case Unregister(call) => UnregisterLinks(s, call);
    case List(o) => ListLinks(s, o);
  }

  lemma TableKept(base: seq<Row>, s: State, a: Action)
    requires TableCredited(base, s)
    ensures TableCredited(base, Do(s, a))
  {
    if a.Flush? && Sendable(s.pending, a.batch) && a.outcome != Failed {
      CreditKept(base, s, a.batch, a.outcome);
    }
  }

  lemma InvKept(base: seq<Row>, s: State, a: Action)
    requires Inv(base, s)
    ensures Inv(base, Do(s, a))
  {
    BalancedKept(s, a);
    HandKept(s, a);
    LinksKept(s, a);
    TableKept(base, s, a);
  }

  lemma {:induction false} InvOverRuns(base: seq<Row>, s: State, actions: seq<Action>)
    requires Inv(base, s)
    ensures Inv(base, Run(s, actions))
    decreases |actions|
  {
    if actions != [] {
      InvKept(base, s, actions[0]);
      InvOverRuns(base, Do(s, actions[0]), actions[1..]);
    }
  }

  lemma StartInv(table: seq<Row>)
    ensures Inv(table, Start(table))
  {
  }

}
