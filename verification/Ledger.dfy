/**
  Where every counted byte is: in a user's live counter, in the hand of the collector, in
  the pending buffer or in the users table (statistic/mysql/mysql.go); or dropped by a
  removal, or left on a user object that nobody will look at again.

  Adding a user looks its hash up, and stores a new object only later; two overlapping calls
  may both store one, and the second replaces the first.

  The collector lists the registered users, empties the counters of one listed user at a
  time with two atomic swaps and then merges what it took into the pending buffer.  A removal
  finds a user, empties its counters with two swaps and then unregisters its hash.  Traffic
  keeps arriving on every object all the time, also on a removed one whose connections are
  not closed yet.  Each batch UPDATE may succeed, fail without effect, or take effect and
  still report failure.
*/
module Ledger {
  import opened Traffic
  import opened TrafficUpdate
  import opened UserCache

  type Book = map<Hash, Delta>

  function Get(b: Book, h: Hash, d: Direction): int {
    if h in b then b[h].At(d) else 0
  }

  function Put(b: Book, h: Hash, d: Delta): Book {
    b[h := Delta(Get(b, h, Sent) + d.sent, Get(b, h, Recv) + d.recv)]
  }

  /**
    A call under way.  A removal has found an object and emptied some of its counters; an
    addition has found the hash free and not yet stored its object.
  */
  datatype Call = Removal(who: int, hash: Hash, emptied: int) | Addition(hash: Hash)

  datatype Hand = Nothing | TookSent(who: int, sent: int) | TookBoth(who: int, delta: Delta)

  datatype History = History(counted: Book, dropped: Book, flushed: Book, surplus: Book)

  /**
    `todo` is what ListUsers returned and the collector has still to visit.  `past` is
    history that the source does not keep.
  */
  datatype State = State(
    cache: Cache,
    todo: set<int>,
    hand: Hand,
    calls: map<int, Call>,
    pending: Book,
    table: seq<Row>,
    past: History)

  function Start(table: seq<Row>): State {
    State(EMPTY, {}, Nothing, map[], map[], table, History(map[], map[], map[], map[]))
  }

  datatype Outcome = Success | Failed | FailedButApplied

  datatype Action =
    | Count(who: int, dir: Direction, n: nat)
    | Add(call: int, hash: Hash)
    | Store(call: int)
    | Limit(row: Row)
    | Remove(call: int, hash: Hash)
    | Drop(call: int)
    | Unregister(call: int)
    | List(who: int)
    | TakeSent(who: int)
    | TakeRecv
    | Merge
    | Flush(batch: seq<Entry>, outcome: Outcome)

  function SetCounter(c: Cache, o: int, d: Delta): Cache
    requires 0 <= o < |c.objects|
  {
    c.(objects := c.objects[o := c.objects[o].(counter := d)])
  }

  /** A batch the flush loop may send: distinct users, each with all that is pending for it. */
  ghost predicate Sendable(pending: Book, batch: seq<Entry>) {
    && batch != [] && Distinct(batch)
    && forall e | e in batch :: e.hash in pending && pending[e.hash] == e.delta
  }

  function ExecuteBatch(batch: seq<Entry>, table: seq<Row>): seq<Row> {
    var (query, args) := Statement(batch);
    Execute(query, args, table)
  }

  function HashSet(batch: seq<Entry>): set<Hash> {
    set i | 0 <= i < |batch| :: batch[i].hash
  }

  /** What is pending for the users a batch names. */
  function Due(pending: Book, names: set<Hash>): Book {
    map h | h in pending && h in names :: pending[h]
  }

  function PutAll(b: Book, due: Book): Book {
    map h | h in b.Keys + due.Keys ::
      Delta(Get(b, h, Sent) + Get(due, h, Sent), Get(b, h, Recv) + Get(due, h, Recv))
  }

  predicate Exists(s: State, o: int) {
    0 <= o < |s.cache.objects|
  }

  // One function per atomic step; a step that is not possible in the state does nothing.

  function DoCount(s: State, o: int, d: Direction, n: nat): State {
    if !Exists(s, o) then s else
    var u := s.cache.objects[o];
    s.(cache := SetCounter(s.cache, o, u.counter.With(d, u.counter.At(d) + n)),
       past := s.past.(counted := Put(s.past.counted, u.hash, Only(d, n))))
  }

  /** AddUser does nothing if it finds the hash registered. */
  function DoAdd(s: State, call: int, h: Hash): State {
    if call in s.calls || h in s.cache.registry then s else s.(calls := s.calls[call := Addition(h)])
  }

  /** Otherwise it stores a new object, whatever has been registered meanwhile. */
  function DoStore(s: State, call: int): State {
    if call !in s.calls || !s.calls[call].Addition? then s
    else s.(cache := StoreUser(s.cache, s.calls[call].hash), calls := s.calls - {call})
  }

  predicate Removing(calls: map<int, Call>, call: int) {
    call in calls && calls[call].Removal?
  }

  /** DelUser finds the object first. */
  function DoRemove(s: State, call: int, h: Hash): State {
    if call in s.calls || h !in s.cache.registry then s
    else s.(calls := s.calls[call := Removal(s.cache.registry[h], h, 0)])
  }

  /** Then ResetTraffic swaps its counters to zero, sent first, and forgets what they held. */
  function DoDrop(s: State, call: int): State {
    if !Removing(s.calls, call) || !Exists(s, s.calls[call].who) || s.calls[call].emptied >= 2 then s else
    var r := s.calls[call];
    var u, d := s.cache.objects[r.who], Emptying(r);
    s.(cache := SetCounter(s.cache, r.who, u.counter.With(d, 0)),
       calls := s.calls[call := r.(emptied := r.emptied + 1)],
       past := s.past.(dropped := Put(s.past.dropped, u.hash, Only(d, u.counter.At(d)))))
  }

  function Emptying(r: Call): Direction
    requires r.Removal?
  {
    if r.emptied == 0 then Sent else Recv
  }

  /** At last the hash is deleted, whatever object it stands for by now. */
  function DoUnregister(s: State, call: int): State {
    if !Removing(s.calls, call) || s.calls[call].emptied < 2 then s
    else s.(cache := s.cache.(registry := s.cache.registry - {s.calls[call].hash}), calls := s.calls - {call})
  }

  predicate Registered(c: Cache, o: int) {
    0 <= o < |c.objects| && c.objects[o].hash in c.registry && c.registry[c.objects[o].hash] == o
  }

  function DoList(s: State, o: int): State {
    if Registered(s.cache, o) then s.(todo := s.todo + {o}) else s
  }

  function DoTakeSent(s: State, o: int): State {
    if !Exists(s, o) || o !in s.todo || s.hand != Nothing then s else
    var c := s.cache.objects[o].counter;
    s.(cache := SetCounter(s.cache, o, c.With(Sent, 0)), todo := s.todo - {o}, hand := TookSent(o, c.sent))
  }

  function DoTakeRecv(s: State): State {
    if !s.hand.TookSent? || !Exists(s, s.hand.who) then s else
    var o := s.hand.who;
    var c := s.cache.objects[o].counter;
    s.(cache := SetCounter(s.cache, o, c.With(Recv, 0)), hand := TookBoth(o, Delta(s.hand.sent, c.recv)))
  }

  function DoMerge(s: State): State {
    if !s.hand.TookBoth? || !Exists(s, s.hand.who) then s
    else if s.hand.delta.IsZero() then s.(hand := Nothing)
    else s.(hand := Nothing,
            pending := Put(s.pending, s.cache.objects[s.hand.who].hash, s.hand.delta))
  }

  ghost function DoFlush(s: State, batch: seq<Entry>, outcome: Outcome): State {
    if !Sendable(s.pending, batch) || outcome == Failed then s else
    var due := Due(s.pending, HashSet(batch));
    var flushed, surplus := PutAll(s.past.flushed, due), PutAll(s.past.surplus, due);
    var sent := s.(table := ExecuteBatch(batch, s.table));
    if outcome == Success then sent.(pending := s.pending - HashSet(batch), past := s.past.(flushed := flushed))
    else sent.(past := s.past.(flushed := flushed, surplus := surplus))
  }

  ghost function DoLimit(s: State, row: Row): State {
    if s.cache.Valid() then s.(cache := SetLimits(s.cache, row)) else s
  }

  ghost function Do(s: State, a: Action): State {
    match a
    case Count(o, d, n) => DoCount(s, o, d, n)
    case Add(call, h) => DoAdd(s, call, h)
    case Store(call) => DoStore(s, call)
    case Limit(row) => DoLimit(s, row)
    case Remove(call, h) => DoRemove(s, call, h)
    case Drop(call) => DoDrop(s, call)
    case Unregister(call) => DoUnregister(s, call)
    case List(o) => DoList(s, o)
    case TakeSent(o) => DoTakeSent(s, o)
    case TakeRecv => DoTakeRecv(s)
    case Merge => DoMerge(s)
    case Flush(batch, outcome) => DoFlush(s, batch, outcome)
  }

  ghost function Run(s: State, actions: seq<Action>): State
    decreases |actions|
  {
    if actions == [] then s else Run(Do(s, actions[0]), actions[1..])
  }

  lemma {:induction false} RunAppend(s: State, first: seq<Action>, second: seq<Action>)
    ensures Run(s, first + second) == Run(Run(s, first), second)
    decreases |first|
  {
    if first == [] {
      assert first + second == second;
    } else {
      assert (first + second)[1..] == first[1..] + second;
      RunAppend(Do(s, first[0]), first[1..], second);
    }
  }

  lemma RunSnoc(s: State, trace: seq<Action>, a: Action)
    ensures Run(s, trace + [a]) == Do(Run(s, trace), a)
  {
    RunAppend(s, trace, [a]);
    assert [a][1..] == [];
    assert Run(Do(Run(s, trace), a), []) == Do(Run(s, trace), a);
  }

  lemma TwoSteps(s: State, a: Action, b: Action)
    ensures Run(s, [a, b]) == Do(Do(s, a), b)
  {
    RunSnoc(s, [], a);
    RunSnoc(s, [a], b);
    assert [] + [a] == [a] && [a] + [b] == [a, b];
    assert Run(s, []) == s;
  }

  /** The three steps of the collector on one user, without interruption. */
  lemma CollectOne(s: State, o: int)
    requires Exists(s, o) && o in s.todo && s.hand == Nothing
    ensures var u := s.cache.objects[o];
      Run(s, [TakeSent(o), TakeRecv, Merge])
      == s.(cache := SetCounter(s.cache, o, Delta(0, 0)), todo := s.todo - {o},
            pending := if u.counter.IsZero() then s.pending else Put(s.pending, u.hash, u.counter))
  {
    var u := s.cache.objects[o];
    RunThree(s, TakeSent(o), TakeRecv, Merge);
    var s1 := DoTakeSent(s, o);
    assert s1 == s.(cache := SetCounter(s.cache, o, Delta(0, u.counter.recv)), todo := s.todo - {o},
                    hand := TookSent(o, u.counter.sent));
    var s2 := DoTakeRecv(s1);
    assert s2.cache.objects == SetCounter(s.cache, o, Delta(0, 0)).objects;
    assert s2 == s.(cache := SetCounter(s.cache, o, Delta(0, 0)), todo := s.todo - {o}, hand := TookBoth(o, u.counter));
  }

  lemma RunThree(s: State, a: Action, b: Action, c: Action)
    ensures Run(s, [a, b, c]) == Do(Do(Do(s, a), b), c)
  {
    var u := Do(s, a);
    var v := Do(u, b);
    var w := Do(v, c);
    assert [a, b, c][1..] == [b, c] && [b, c][1..] == [c] && [c][1..] == [];
    assert Run(w, []) == w;
    assert Run(v, [c]) == w;
    assert Run(u, [b, c]) == Run(v, [c]);
  }

  // ---------- the balance ----------

  function Part(u: User, h: Hash, d: Direction): int {
    if u.hash == h then u.counter.At(d) else 0
  }

  /** Bytes in the counters of the first `n` objects that belong to user `h`. */
  function StoredUpTo(objects: seq<User>, n: nat, h: Hash, d: Direction): int
    requires n <= |objects|
  {
    if n == 0 then 0
    else StoredUpTo(objects, n - 1, h, d) + Part(objects[n - 1], h, d)
  }

  /** Bytes in the counters of all objects of user `h`, reachable or not. */
  function Stored(objects: seq<User>, h: Hash, d: Direction): int {
    StoredUpTo(objects, |objects|, h, d)
  }

  /** The collector can still come to this counter: through the registry, its list, or its second swap. */
  predicate Reachable(s: State, o: int, d: Direction) {
    Registered(s.cache, o) || o in s.todo || (s.hand.TookSent? && s.hand.who == o && d == Recv)
  }

  function LivePart(s: State, o: int, h: Hash, d: Direction): int
    requires Exists(s, o)
  {
    if Reachable(s, o, d) then Part(s.cache.objects[o], h, d) else 0
  }

  function LiveUpTo(s: State, n: nat, h: Hash, d: Direction): int
    requires n <= |s.cache.objects|
  {
    if n == 0 then 0 else LiveUpTo(s, n - 1, h, d) + LivePart(s, n - 1, h, d)
  }

  /** Bytes of user `h` in counters that the collector can still come to. */
  function Live(s: State, h: Hash, d: Direction): int {
    LiveUpTo(s, |s.cache.objects|, h, d)
  }

  function OrphanPart(s: State, o: int, h: Hash, d: Direction): int
    requires Exists(s, o)
  {
    if Reachable(s, o, d) then 0 else Part(s.cache.objects[o], h, d)
  }

  function OrphanedUpTo(s: State, n: nat, h: Hash, d: Direction): int
    requires n <= |s.cache.objects|
  {
    if n == 0 then 0 else OrphanedUpTo(s, n - 1, h, d) + OrphanPart(s, n - 1, h, d)
  }

  /** Bytes of user `h` on removed or replaced objects that the collector cannot come to any more. */
  function Orphaned(s: State, h: Hash, d: Direction): int {
    OrphanedUpTo(s, |s.cache.objects|, h, d)
  }

  lemma {:induction false} StoredSplits(s: State, n: nat, h: Hash, d: Direction)
    requires n <= |s.cache.objects|
    ensures StoredUpTo(s.cache.objects, n, h, d) == LiveUpTo(s, n, h, d) + OrphanedUpTo(s, n, h, d)
    decreases n
  {
    if n > 0 {
      StoredSplits(s, n - 1, h, d);
    }
  }

  function Held(s: State, h: Hash, d: Direction): int {
    match s.hand
    case Nothing => 0
    case TookSent(o, sent) =>
      if d == Sent && Exists(s, o) && s.cache.objects[o].hash == h then sent else 0
    case TookBoth(o, delta) =>
      if Exists(s, o) && s.cache.objects[o].hash == h then delta.At(d) else 0
  }

  /** Bytes that can still get into the table: live, in hand or pending. */
  function Waiting(s: State, h: Hash, d: Direction): int {
    Live(s, h, d) + Held(s, h, d) + Get(s.pending, h, d)
  }

  /** Bytes that cannot: emptied by a removal, or left behind on a removed or replaced object. */
  function Lost(s: State, h: Hash, d: Direction): int {
    Get(s.past.dropped, h, d) + Orphaned(s, h, d)
  }

  ghost predicate BalancedFor(s: State, h: Hash, d: Direction) {
    Stored(s.cache.objects, h, d) + Held(s, h, d) + Get(s.pending, h, d) + Get(s.past.flushed, h,
          d) + Get(s.past.dropped, h, d)
      == Get(s.past.counted, h, d) + Get(s.past.surplus, h, d)
  }

  ghost predicate Balanced(s: State) {
    forall h, d :: BalancedFor(s, h, d)
  }

  ghost predicate HandValid(s: State) {
    s.hand.Nothing? || Exists(s, s.hand.who)
  }

  /** Registry, list and calls name existing objects, the registry under their own hash. */
  ghost predicate Links(s: State) {
    && s.cache.Valid()
    && (forall o | o in s.todo :: Exists(s, o))
    && (forall c | Removing(s.calls, c) :: Exists(s, s.calls[c].who))
  }

  /** A row plus everything the book holds for its user: upload takes received bytes. */
  function Credited(row: Row, b: Book): Row {
    Credit(row, Get(b, row.hash, Recv), Get(b, row.hash, Sent))
  }

  /** Every row is its original plus what was flushed for its user. */
  ghost predicate TableCredited(base: seq<Row>, s: State) {
    && |s.table| == |base|
    && forall i | 0 <= i < |base| :: s.table[i] == Credited(base[i], s.past.flushed)
  }

  ghost predicate Inv(base: seq<Row>, s: State) {
    Balanced(s) && HandValid(s) && Links(s) && TableCredited(base, s)
  }

  lemma {:induction false} StoredUpToUpdate(objects: seq<User>, n: nat, o: int, u: User, h: Hash, d: Direction)
    requires 0 <= o < |objects| && n <= |objects|
    ensures StoredUpTo(objects[o := u], n, h, d)
         == StoredUpTo(objects, n, h, d) + (if o < n then Part(u, h, d) - Part(objects[o], h, d) else 0)
    decreases n
  {
    if n > 0 {
      StoredUpToUpdate(objects, n - 1, o, u, h, d);
    }
  }

  lemma StoredUpdate(objects: seq<User>, o: int, u: User, h: Hash, d: Direction)
    requires 0 <= o < |objects|
    ensures Stored(objects[o := u], h, d) == Stored(objects, h, d) + Part(u, h, d) - Part(objects[o], h, d)
  {
    StoredUpToUpdate(objects, |objects|, o, u, h, d);
  }

  lemma {:induction false} StoredUpToExtend(objects: seq<User>, n: nat, u: User, h: Hash, d: Direction)
    requires n <= |objects|
    ensures StoredUpTo(objects + [u], n, h, d) == StoredUpTo(objects, n, h, d)
    decreases n
  {
    if n > 0 {
      StoredUpToExtend(objects, n - 1, u, h, d);
    }
  }

  lemma StoredExtend(objects: seq<User>, u: User, h: Hash, d: Direction)
    requires u.counter.IsZero()
    ensures Stored(objects + [u], h, d) == Stored(objects, h, d)
  {
    StoredUpToExtend(objects, |objects|, u, h, d);
  }

  lemma PutGet(b: Book, h: Hash, x: Delta, k: Hash, d: Direction)
    ensures Get(Put(b, h, x), k, d) == Get(b, k, d) + (if k == h then x.At(d) else 0)
  {
  }

  lemma PutAllGet(b: Book, due: Book, k: Hash, d: Direction)
    ensures Get(PutAll(b, due), k, d) == Get(b, k, d) + Get(due, k, d)
  {
  }

  /** What a sendable batch owes to a user is what is pending for it, if the batch names it. */
  lemma SendableOwes(pending: Book, batch: seq<Entry>, h: Hash, d: Direction)
    requires Sendable(pending, batch)
    ensures Owed(batch, h, d) == Get(Due(pending, HashSet(batch)), h, d)
  {
    if i :| 0 <= i < |batch| && batch[i].hash == h {
      OwedMember(batch, batch[i], d);
    } else {
      OwedNothing(batch, h, d);
    }
  }

  lemma RowCredited(row: Row, now: Row, flushed: Book, pending: Book, batch: seq<Entry>)
    requires Sendable(pending, batch) && now == Credited(row, flushed)
    ensures Owing(batch, now) == Credited(row, PutAll(flushed, Due(pending, HashSet(batch))))
  {
    var due := Due(pending, HashSet(batch));
    SendableOwes(pending, batch, row.hash, Sent);
    SendableOwes(pending, batch, row.hash, Recv);
    PutAllGet(flushed, due, row.hash, Sent);
    PutAllGet(flushed, due, row.hash, Recv);
  }

  /** Sending a batch credits exactly the rows of its users. */
  lemma CreditKept(base: seq<Row>, s: State, batch: seq<Entry>, outcome: Outcome)
    requires TableCredited(base, s) && Sendable(s.pending, batch) && outcome != Failed
    ensures TableCredited(base, DoFlush(s, batch, outcome))
  {
    BatchCredits(batch, s.table);
    forall i | 0 <= i < |base|
      ensures Owing(batch, s.table[i]) == Credited(base[i], PutAll(s.past.flushed, Due(s.pending, HashSet(batch))))
    {
      RowCredited(base[i], s.table[i], s.past.flushed, s.pending, batch);
    }
  }
}
