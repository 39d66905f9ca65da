/**
  The updater cycle of the MySQL authenticator (statistic/mysql/mysql.go): collect the live
  counters, flush the pending buffer in sorted batches, mirror the users table.

  Every method returns, as a ghost, the schedule of ledger steps it performed, so that the
  conservation laws of module Ledger apply to any mixture of cycles and live traffic.
*/
module MysqlAuthenticator {
  import opened Numbers
  import opened Traffic
  import opened TrafficUpdate
  import opened UserCache
  import opened Ledger
  import opened LedgerInvariant
  import Conservation

  const DEFAULT_TRAFFIC_BATCH_SIZE := 500

  // ---------- sorting by hash ----------

  /** Lexicographic order of strings. */
  predicate Less(a: string, b: string) {
    if b == "" then false
    else if a == "" then true
    else a[0] < b[0] || (a[0] == b[0] && Less(a[1..], b[1..]))
  }

  lemma {:induction false} LessTransitive(a: string, b: string, c: string)
    requires Less(a, b) && Less(b, c)
    ensures Less(a, c)
    decreases |a|
  {
    if a != "" && a[0] == b[0] && b[0] == c[0] {
      LessTransitive(a[1..], b[1..], c[1..]);
    }
  }

  lemma {:induction false} LessTotal(a: string, b: string)
    requires a != b
    ensures Less(a, b) || Less(b, a)
    decreases |a|
  {
    if a != "" && b != "" && a[0] == b[0] {
      assert a == [a[0]] + a[1..] && b == [b[0]] + b[1..];
      LessTotal(a[1..], b[1..]);
    }
  }

  lemma {:induction false} LessIrreflexive(a: string)
    ensures !Less(a, a)
    decreases |a|
  {
    if a != "" {
      LessIrreflexive(a[1..]);
    }
  }

  ghost predicate Sorted(s: seq<Entry>) {
    forall i, j | 0 <= i < j < |s| :: Less(s[i].hash.text, s[j].hash.text)
  }

  lemma SortedDistinct(s: seq<Entry>)
    requires Sorted(s)
    ensures Distinct(s)
  {
    forall i, j | 0 <= i < j < |s|
      ensures s[i].hash != s[j].hash
    {
      LessIrreflexive(s[i].hash.text);
    }
  }

  /** From the first entry that is not smaller on, all entries are larger. */
  lemma LargerFrom(s: seq<Entry>, e: Entry, k: nat, i: nat)
    requires Sorted(s) && k <= i < |s| && s[k].hash != e.hash && !Less(s[k].hash.text, e.hash.text)
    ensures Less(e.hash.text, s[i].hash.text)
  {
    LessTotal(s[k].hash.text, e.hash.text);
    if k < i {
      LessTransitive(e.hash.text, s[k].hash.text, s[i].hash.text);
    }
  }

  lemma InsertedSorted(s: seq<Entry>, e: Entry, k: nat)
    requires Sorted(s) && k <= |s|
    requires forall i | 0 <= i < k :: Less(s[i].hash.text, e.hash.text)
    requires forall i | k <= i < |s| :: Less(e.hash.text, s[i].hash.text)
    ensures Sorted(s[..k] + [e] + s[k..])
  {
  }

  lemma InsertedIn(s: seq<Entry>, e: Entry, k: nat)
    requires k <= |s|
    ensures forall x :: x in s[..k] + [e] + s[k..] <==> x in s || x == e
  {
    assert s == s[..k] + s[k..];
  }

  /** Inserts an entry of a new user into a sorted list. */
  method Insert(s: seq<Entry>, e: Entry) returns (r: seq<Entry>)
    requires Sorted(s) && forall i | 0 <= i < |s| :: s[i].hash != e.hash
    ensures Sorted(r)
    ensures forall x :: x in r <==> x in s || x == e
  {
    var k := 0;
    while k < |s| && Less(s[k].hash.text, e.hash.text)
      invariant 0 <= k <= |s|
      invariant forall i | 0 <= i < k :: Less(s[i].hash.text, e.hash.text)
    {
      k := k + 1;
    }
    forall i | k <= i < |s|
      ensures Less(e.hash.text, s[i].hash.text)
    {
      LargerFrom(s, e, k, i);
    }
    r := s[..k] + [e] + s[k..];
    InsertedSorted(s, e, k);
    InsertedIn(s, e, k);
  }

  predicate NonNegative(d: Delta) {
    d.sent >= 0 && d.recv >= 0
  }

  /** An entry worth a batch: some bytes, and no negative number of them. */
  predicate Outstanding(d: Delta) {
    NonNegative(d) && !d.IsZero()
  }

  /** How the SELECT of a refresh goes wrong, if it does. */
  datatype ReadFault = NoFault | QueryFails | ScanFailsAt(row: nat) | RowsFail

  /** A scan can fail only at a row that is there. */
  predicate ReadFails(fault: ReadFault, rows: nat) {
    fault == QueryFails || fault == RowsFail || (fault.ScanFailsAt? && fault.row < rows)
  }

  /** Registered users point to their own object and no counter is negative. */
  ghost predicate Sound(c: Cache) {
    c.Valid() && forall o | 0 <= o < |c.objects| :: NonNegative(c.objects[o].counter)
  }

  class Authenticator {
    var cache: Cache                          // the users of the embedded memory authenticator
    var pendingTraffic: map<Hash, Delta>
    var table: seq<Row>                       // the users table of the database
    var failedFlushCycles: nat
    var errCount: nat
    const trafficBatchSize: int
    ghost var model: State
    ghost const base: seq<Row>                // the rows the table started with

    ghost predicate Valid()
      reads this
    {
      && model.cache == cache
      && model.pending == pendingTraffic
      && model.table == table
      && model.hand == Nothing && model.calls == map[]
      && Sound(cache)
      && (forall h | h in pendingTraffic :: Outstanding(pendingTraffic[h]))
    }

    /** Between the calls of an updater cycle nothing is listed. */
    ghost predicate AtRest()
      reads this
    {
      Valid() && model.todo == {}
    }

    /** The books balance: every row is its original plus what was flushed for its user. */
    ghost predicate Accounted()
      reads this
    {
      Inv(base, model) && Conservation.Positive(model)
    }

    constructor (rows: seq<Row>, batchSize: int)
      ensures AtRest() && Accounted() && base == rows && model == Start(rows) && trafficBatchSize == batchSize
    {
      cache, pendingTraffic, table := EMPTY, map[], rows;
      failedFlushCycles, errCount, trafficBatchSize := 0, 0, batchSize;
      model, base := Start(rows), rows;
      StartInv(rows);
      Conservation.StartPositive(rows);
    }

    /** A connection counts bytes on the object of its user, registered or not. */
    method AddTraffic(o: nat, d: Direction, n: nat)
      requires AtRest() && o < |cache.objects|
      modifies this`cache, this`model
      ensures AtRest() && model == Do(old(model), Count(o, d, n))
      ensures old(Accounted()) ==> Accounted()
      ensures var u := old(cache).objects[o];
        cache == SetCounter(old(cache), o, u.counter.With(d, u.counter.At(d) + n))
    {
      if Accounted() {
        InvKept(base, model, Count(o, d, n));
        Conservation.PositiveKept(model, Count(o, d, n));
      }
      CountKeepsSound(model, o, d, n);
      var u := cache.objects[o];
      cache, model := SetCounter(cache, o, u.counter.With(d, u.counter.At(d) + n)), DoCount(model, o, d, n);
    }

    // ---------- collectPendingTraffic ----------

    /** ListUsers: the registered users, in any order. */
    method ListUsers() returns (users: seq<Hash>, ghost trace: seq<Action>)
      requires AtRest()
      modifies this`model
      ensures Valid() && model == Run(old(model), trace) && Quiet(trace) && cache == old(cache)
      ensures Lists(users, cache.registry.Keys) && model.todo == Objects(cache, users)
    {
      users, trace := [], [];
      var left := cache.registry.Keys;
      ghost var done: set<Hash> := {};
      while left != {}
        invariant done !! left && done + left == cache.registry.Keys && Lists(users, done)
        invariant Valid() && model == Run(old(model), trace) && Quiet(trace)
        invariant model.todo == Objects(cache, users)
        decreases left
      {
        var h :| h in left;
        ghost var o := cache.registry[h];
        RunSnoc(old(model), trace, List(o));
        ListsSnoc(users, done, h);
        ObjectsSnoc(cache, users, h);
        MoveOne(done, left, h);
        model := Do(model, List(o));
        trace := trace + [List(o)];
        users := users + [h];
        left, done := left - {h}, done + {h};
      }
    }

    /** ResetTraffic of one listed user, merged into the pending buffer. */
    method CollectUser(h: Hash)
      requires Valid() && h in cache.registry && cache.registry[h] in model.todo
      modifies this`cache, this`pendingTraffic, this`model
      ensures Valid()
      ensures model == Run(old(model), [TakeSent(old(cache).registry[h]), TakeRecv, Merge])
      ensures model.todo == old(model).todo - {old(cache).registry[h]}
      ensures cache == SetCounter(old(cache), old(cache).registry[h], Delta(0, 0))
      ensures forall k, d :: Get(pendingTraffic, k, d) == Get(old(pendingTraffic), k, d)
                + if k == h then old(cache).objects[old(cache).registry[h]].counter.At(d) else 0
    {
      var o := cache.registry[h];
      var sent, recv := cache.objects[o].counter.sent, cache.objects[o].counter.recv;
      CollectOne(model, o);
      model := Run(model, [TakeSent(o), TakeRecv, Merge]);
      cache := SetCounter(cache, o, Delta(0, 0));
      if sent == 0 && recv == 0 {
        return;
      }
      forall k, d {
        PutGet(pendingTraffic, h, Delta(sent, recv), k, d);
      }
      pendingTraffic := Put(pendingTraffic, h, Delta(sent, recv));
    }

    /** Moves the counters of every registered user into the pending buffer. */
    method CollectPendingTraffic() returns (ghost trace: seq<Action>)
      requires AtRest()
      modifies this`cache, this`pendingTraffic, this`model
      ensures AtRest() && model == Run(old(model), trace) && Quiet(trace)
      ensures cache.registry == old(cache).registry
      ensures Emptied(old(cache), cache.registry.Keys, cache.objects)
      ensures Buffered(old(cache), old(pendingTraffic), cache.registry.Keys, pendingTraffic)
    {
      var users;
      users, trace := ListUsers();
      ghost var c := cache;
      assert users[0..] == users;
      for i := 0 to |users|
        invariant Valid() && model == Run(old(model), trace) && Quiet(trace)
        invariant model.todo == Objects(c, users[i..])
        invariant cache.registry == c.registry
        invariant Emptied(c, Names(users[..i]), cache.objects)
        invariant Buffered(c, old(pendingTraffic), Names(users[..i]), pendingTraffic)
      {
        var h := users[i];
        ghost var before, pending, o := cache.objects, pendingTraffic, cache.registry[h];
        NextUser(c, users, i);
        CollectUser(h);
        EmptiedStep(c, Names(users[..i]), before, h);
        BufferedStep(c, old(pendingTraffic), Names(users[..i]), pending, h, pendingTraffic);
        RunAppend(old(model), trace, [TakeSent(o), TakeRecv, Merge]);
        QuietAppend(trace, o);
        trace := trace + [TakeSent(o), TakeRecv, Merge];
      }
      AllUsers(c, users);
    }

    // ---------- flushPendingTraffic ----------

    /** The non-zero pending entries, sorted by hash. */
    method SortedPendingTraffic() returns (entries: seq<Entry>)
      requires Valid()
      ensures Sorted(entries) && Buffers(pendingTraffic, entries)
    {
      entries := [];
      var todo := pendingTraffic.Keys;
      ghost var done: set<Hash> := {};
      while todo != {}
        invariant done !! todo && done + todo == pendingTraffic.Keys
        invariant Sorted(entries)
        invariant forall e :: e in entries <==> e.hash in done && e.delta == pendingTraffic[e.hash]
        decreases todo
      {
        var h :| h in todo;
        var delta := pendingTraffic[h];
        assert forall i | 0 <= i < |entries| :: entries[i] in entries;
        if delta.sent != 0 || delta.recv != 0 {
          entries := Insert(entries, Entry(h, delta));
        }
        MoveOne(done, todo, h);
        todo, done := todo - {h}, done + {h};
      }
      SortedDistinct(entries);
      forall h | h in pendingTraffic
        ensures h in HashSet(entries)
      {
        assert Entry(h, pendingTraffic[h]) in entries;
      }
    }

    /**
      Sends the pending buffer batch by batch; the k-th statement ends with outcomes(k).
      The first failure stops the flush and leaves its batch and all later ones pending.
    */
    method FlushPendingTraffic(outcomes: nat -> Outcome)
      returns (ok: bool, ghost trace: seq<Action>, ghost entries: seq<Entry>)
      requires AtRest()
      modifies this`pendingTraffic, this`table, this`model, this`failedFlushCycles, this`errCount
      ensures AtRest() && Sorted(entries) && Buffers(old(pendingTraffic), entries)
      ensures Finished(old(model), Work(model, trace, pendingTraffic, table), ok, entries,
                       if trafficBatchSize > 0 then trafficBatchSize else 500, outcomes)
      ensures failedFlushCycles == if ok then 0 else old(failedFlushCycles) + 1
      ensures errCount == if ok then old(errCount) else old(errCount) + 1
    {
      var pending := SortedPendingTraffic();
      entries := pending;
      ok, trace := SendPending(pending, outcomes);
      if !ok {
        errCount := errCount + 1;
        failedFlushCycles := failedFlushCycles + 1;
        return;
      }
      failedFlushCycles := 0;
    }

    /** The statements of a flush. */
    method SendPending(pending: seq<Entry>, outcomes: nat -> Outcome) returns (ok: bool, ghost trace: seq<Action>)
      requires AtRest() && Buffers(pendingTraffic, pending)
      modifies this`pendingTraffic, this`table, this`model
      ensures AtRest()
      ensures Finished(old(model), Work(model, trace, pendingTraffic, table), ok, pending,
                       if trafficBatchSize > 0 then trafficBatchSize else 500, outcomes)
    {
      var after, written;
      ghost var w;
      ok, after, written, w := FlushAll(pendingTraffic, table, pending, trafficBatchSize, outcomes, model);
      trace, pendingTraffic, table, model := w.trace, after, written, w.now;
    }

    // ---------- refreshUsers ----------

    /**
      Mirrors the rows of the SELECT into the cache.  A failed query changes nothing; a row
      that cannot be read stops the refresh after the rows before it, without any sweep.
    */
    method RefreshUsers(rows: seq<Row>, fault: ReadFault) returns (ok: bool, ghost trace: seq<Action>)
      requires AtRest()
      modifies this`cache, this`model, this`errCount
      ensures AtRest() && model == Run(old(model), trace)
      ensures ok <==> !ReadFails(fault, |rows|)
      ensures errCount == if ok then old(errCount) else old(errCount) + 1
      ensures ok ==> Agrees(old(cache), rows, cache)
      ensures ok ==> FollowsTable(cache, rows)
      ensures fault == QueryFails ==> cache == old(cache)
      ensures fault.ScanFailsAt? && fault.row < |rows| ==> cache == RefreshRows(old(cache), rows[..fault.row])
      ensures fault == RowsFail ==> cache == RefreshRows(old(cache), rows)
    {
      if fault == QueryFails {
        errCount := errCount + 1;
        return false, [];
      }
      var n := if fault.ScanFailsAt? && fault.row < |rows| then fault.row else |rows|;
      ghost var c := cache;
      cache, trace := MirrorRows(cache, rows[..n], model);
      ghost var middle := Run(model, trace);
      if n < |rows| || fault == RowsFail {
        model := middle;
        errCount := errCount + 1;
        assert rows[..|rows|] == rows;
        return false, trace;
      }
      assert rows[..n] == rows;
      ghost var more;
      cache, more := SweepUsers(cache, rows, middle);
      RunAppend(model, trace, more);
      model := Run(middle, more);
      trace := trace + more;
      RefreshAgrees(c, rows, cache);
      AgreesFollows(c, rows, cache);
      ok := true;
    }

    // ---------- syncTrafficAndUsers ----------

    /**
      One updater cycle.  A failed flush leaves the set of users and their limits alone.  After
      a successful one, exactly the users within their quota are registered, where a user has
      used up what its row said at first plus every byte counted for it, those lost with a
      removed object excepted and those of ambiguous batches counted twice.
    */
    method SyncTrafficAndUsers(outcomes: nat -> Outcome, fault: ReadFault)
      returns (ok: bool, ghost trace: seq<Action>, ghost collected: Book)
      requires AtRest()
      modifies this
      ensures AtRest() && model == Run(old(model), trace)
      ensures ok <==> pendingTraffic == map[] && !ReadFails(fault, |table|)
      ensures Buffered(old(cache), old(pendingTraffic), old(cache).registry.Keys, collected)
      ensures pendingTraffic == map[] || Unambiguous(outcomes) ==> Settles(old(table), collected, table, pendingTraffic)
      ensures old(Accounted()) ==> Accounted()
      ensures pendingTraffic != map[] ==>
                && !ok && cache.registry == old(cache).registry
                && Emptied(old(cache), cache.registry.Keys, cache.objects)
      ensures ok ==>
                && pendingTraffic == map[]
                && FollowsTable(cache, table)
                && (forall h | h in cache.registry && h in old(cache).registry && AllEntitled(table, h) ::
                      Kept(old(cache), cache, h))
                && (old(Accounted()) ==>
                      forall h :: h in cache.registry <==> HasRow(base, h) && WithinQuota(base, model, h))
    {
      trace := CollectPendingTraffic();
      ghost var more;
      collected := pendingTraffic;
      ghost var entries;
      ok, more, entries := FlushPendingTraffic(outcomes);
      RunAppend(old(model), trace, more);
      trace := trace + more;
      if !ok {
        AccountsKept(base, old(model), trace);
        return;
      }
      assert Idle(cache);
      ghost var emptied := cache;
      ok, more := RefreshUsers(table, fault);
      RunAppend(old(model), trace, more);
      trace := trace + more;
      AccountsKept(base, old(model), trace);
      if ok {
        AgreesIdle(emptied, table, cache);
        RegisteredExactly(base, model);
      }
    }
  }

  lemma AccountsKept(base: seq<Row>, s: State, trace: seq<Action>)
    ensures Inv(base, s) && Conservation.Positive(s) ==>
      Inv(base, Run(s, trace)) && Conservation.Positive(Run(s, trace))
  {
    if Inv(base, s) && Conservation.Positive(s) {
      InvOverRuns(base, s, trace);
      Conservation.PositiveOverRuns(s, trace);
    }
  }

  lemma CountKeepsSound(s: State, o: int, d: Direction, n: nat)
    requires Sound(s.cache) && Exists(s, o)
    ensures Sound(DoCount(s, o, d, n).cache)
  {
  }

  /**
    Exactly the users whose last row leaves them quota are registered, each with the quota, the
    IP limit and the speed limits of that row; a speed that is not positive is no limit.
  */
  ghost predicate FollowsTable(c: Cache, rows: seq<Row>) {
    forall h ::
      && (h in c.registry ==> 0 <= c.registry[h] < |c.objects|)
      && (h in c.registry <==>
            HasRow(rows, h) && (LastRow(rows, h).quota < 0
                                || Add64(LastRow(rows, h).download, LastRow(rows, h).upload) < LastRow(rows, h).quota))
      && (h in c.registry ==>
            var u, row := c.objects[c.registry[h]], LastRow(rows, h);
            && u.hash == h && u.quota == row.quota && u.ipLimit == row.ipLimit
            && u.sendLimit == (if row.speedUp > 0 then row.speedUp else 0)
            && u.recvLimit == (if row.speedDown > 0 then row.speedDown else 0))
  }

  lemma AgreesFollows(c: Cache, rows: seq<Row>, r: Cache)
    requires c.Valid() && r.Valid() && Agrees(c, rows, r)
    ensures FollowsTable(r, rows)
  {
  }

  // ---------- the quota, end to end ----------

  /** No registered user has uncollected bytes. */
  ghost predicate Idle(c: Cache) {
    forall o | Registered(c, o) :: c.objects[o].counter == Delta(0, 0)
  }

  lemma AgreesIdle(c: Cache, rows: seq<Row>, r: Cache)
    requires c.Valid() && r.Valid() && Idle(c) && Agrees(c, rows, r)
    ensures Idle(r)
  {
    forall o | Registered(r, o)
      ensures r.objects[o].counter == Delta(0, 0)
    {
      var h := r.objects[o].hash;
      assert h in r.registry;
      if h in c.registry && AllEntitled(rows, h) {
        assert Registered(c, c.registry[h]);
      }
    }
  }

  /** Between cycles nothing waits for a user without uncollected bytes. */
  lemma {:induction false} NoneLive(s: State, n: nat, h: Hash, d: Direction)
    requires n <= |s.cache.objects| && Idle(s.cache) && s.todo == {} && s.hand == Nothing
    ensures LiveUpTo(s, n, h, d) == 0
    decreases n
  {
    if n > 0 {
      NoneLive(s, n - 1, h, d);
    }
  }

  /** What a user has used so far: all bytes counted, the surplus once more, without the lost ones. */
  ghost function Used(s: State, h: Hash, d: Direction): int {
    Get(s.past.counted, h, d) + Get(s.past.surplus, h, d) - Lost(s, h, d)
  }

  ghost predicate WithinQuota(base: seq<Row>, s: State, h: Hash)
    requires HasRow(base, h)
  {
    var row := LastRow(base, h);
    row.quota < 0 || Add64(row.download + Used(s, h, Sent), row.upload + Used(s, h, Recv)) < row.quota
  }

  /** After a cycle everything a user has used is in its rows. */
  lemma AllFlushed(base: seq<Row>, s: State, h: Hash, d: Direction)
    requires Inv(base, s) && Idle(s.cache) && s.todo == {} && s.hand == Nothing && s.pending == map[]
    ensures Get(s.past.flushed, h, d) == Used(s, h, d)
  {
    NoneLive(s, |s.cache.objects|, h, d);
    assert BalancedFor(s, h, d);
    Conservation.BalancedSplits(s, h, d);
  }

  lemma {:induction false} LastRowCredited(base: seq<Row>, table: seq<Row>, b: Book, h: Hash)
    requires |table| == |base| && forall i | 0 <= i < |base| :: table[i] == Credited(base[i], b)
    ensures HasRow(table, h) <==> HasRow(base, h)
    ensures HasRow(base, h) ==> LastRow(table, h) == Credited(LastRow(base, h), b)
    decreases |base|
  {
    var n := |base| - 1;
    if HasRow(base, h) || HasRow(table, h) {
      assert table[n].hash == base[n].hash;
      if base[n].hash != h {
        LastRowCredited(base[..n], table[..n], b, h);
      }
    }
  }

  /** Registered by the rows as they are now means registered by the rows at first and the bytes used since. */
  lemma QuotaOf(base: seq<Row>, s: State, h: Hash)
    requires Inv(base, s) && Idle(s.cache) && s.todo == {} && s.hand == Nothing && s.pending == map[]
    ensures HasRow(s.table, h) <==> HasRow(base, h)
    ensures HasRow(base, h) ==> (Entitled(LastRow(s.table, h)) <==> WithinQuota(base, s, h))
  {
    AllFlushed(base, s, h, Sent);
    AllFlushed(base, s, h, Recv);
    LastRowCredited(base, s.table, s.past.flushed, h);
  }

  lemma RegisteredExactly(base: seq<Row>, s: State)
    requires Idle(s.cache) && s.todo == {} && s.hand == Nothing && s.pending == map[]
    requires FollowsTable(s.cache, s.table)
    ensures Inv(base, s) ==> forall h :: h in s.cache.registry <==> HasRow(base, h) && WithinQuota(base, s, h)
  {
    if Inv(base, s) {
      forall h
        ensures h in s.cache.registry <==> HasRow(base, h) && WithinQuota(base, s, h)
      {
        QuotaOf(base, s, h);
      }
    }
  }

  /**
    As long as the sum fits into an int64, within the quota means what it says; and a user of
    which nothing was lost stays below its quota with all bytes ever counted.
  */
  lemma NoOverrun(base: seq<Row>, s: State, h: Hash)
    requires HasRow(base, h) && Conservation.Positive(s)
    requires var row := LastRow(base, h);
      -TWO63 <= row.download + Used(s, h, Sent) + (row.upload + Used(s, h, Recv)) < TWO63
    ensures var row := LastRow(base, h);
      var counted := Get(s.past.counted, h, Sent) + Get(s.past.counted, h, Recv);
      && (WithinQuota(base, s, h) <==>
            row.quota < 0 || row.download + row.upload + Used(s, h, Sent) + Used(s, h, Recv) < row.quota)
      && (WithinQuota(base, s, h) && Lost(s, h, Sent) == 0 && Lost(s, h, Recv) == 0 ==>
            row.quota < 0 || row.download + row.upload + counted < row.quota)
  {
    assert Get(s.past.surplus, h, Sent) >= 0 && Get(s.past.surplus, h, Recv) >= 0;
  }

  /** A surviving user keeps its object, emptied by the collector, and its IP table. */
  ghost predicate Kept(c: Cache, r: Cache, h: Hash) {
    && h in c.registry && h in r.registry && r.registry[h] == c.registry[h]
    && 0 <= c.registry[h] < |c.objects| && c.registry[h] < |r.objects|
    && r.objects[r.registry[h]].ips == c.objects[c.registry[h]].ips
    && r.objects[r.registry[h]].counter == Delta(0, 0)
  }

  /** The same state but for the cache and the bytes dropped with removed users. */
  ghost predicate OnlyCache(s: State, t: State) {
    t == s.(cache := t.cache, past := t.past)
  }

  /** Removing a user: its two counters are discarded, then it is forgotten. */
  lemma RemovalSteps(s: State, h: Hash)
    requires Sound(s.cache) && h in s.cache.registry && s.calls == map[]
    ensures var t := Run(s, [Remove(0, h)] + [Drop(0), Drop(0), Unregister(0)]);
      OnlyCache(s, t) && t.cache == DelUser(s.cache, h) && Sound(t.cache)
  {
    RemovalRun(s, h);
    var s0 := DoRemove(s, 0, h);
    DropBoth(s0, 0);
    assert DelUser(s.cache, h).objects == SetCounter(s.cache, s.cache.registry[h], Delta(0, 0)).objects;
    assert DoDrop(DoDrop(s0, 0), 0).calls - {0} == map[];
  }

  lemma RemovalRun(s: State, h: Hash)
    ensures Run(s, [Remove(0, h)] + [Drop(0), Drop(0), Unregister(0)])
         == DoUnregister(DoDrop(DoDrop(DoRemove(s, 0, h), 0), 0), 0)
  {
    RunAppend(s, [Remove(0, h)], [Drop(0), Drop(0), Unregister(0)]);
    RunSnoc(s, [], Remove(0, h));
    assert [] + [Remove(0, h)] == [Remove(0, h)] && Run(s, []) == s;
    RunThree(DoRemove(s, 0, h), Drop(0), Drop(0), Unregister(0));
  }

  /** The two swaps of a removal. */
  lemma DropBoth(s: State, call: int)
    requires Removing(s.calls, call) && s.calls[call].emptied == 0 && Exists(s, s.calls[call].who)
    ensures var r, t := s.calls[call], DoDrop(DoDrop(s, call), call);
      && t == s.(cache := t.cache, calls := t.calls, past := t.past)
      && t.cache == SetCounter(s.cache, r.who, Delta(0, 0))
      && t.calls == s.calls[call := r.(emptied := 2)]
  {
    var r := s.calls[call];
    var s1 := DoDrop(s, call);
    assert s1.cache == SetCounter(s.cache, r.who, Delta(0, s.cache.objects[r.who].counter.recv));
    assert s1.calls == s.calls[call := r.(emptied := 1)];
    var s2 := DoDrop(s1, call);
    assert s2.cache.objects == SetCounter(s.cache, r.who, Delta(0, 0)).objects;
  }

  /** Admitting a user: registered if it was not, then given the limits of the row. */
  lemma AdmissionSteps(s: State, row: Row)
    requires Sound(s.cache) && Entitled(row) && s.calls == map[]
    ensures var t := Run(s, [Add(0, row.hash), Store(0), Limit(row)]);
      OnlyCache(s, t) && t.cache == RefreshRow(s.cache, row) && Sound(t.cache)
  {
    RunThree(s, Add(0, row.hash), Store(0), Limit(row));
    AdditionSteps(s, row.hash);
    AddUserValid(s.cache, row.hash);
    RefreshRowValid(s.cache, row);
  }

  /** An addition that nothing interrupts. */
  lemma AdditionSteps(s: State, h: Hash)
    requires s.calls == map[]
    ensures DoStore(DoAdd(s, 0, h), 0) == s.(cache := AddUser(s.cache, h))
  {
    var t := DoAdd(s, 0, h);
    if h !in s.cache.registry {
      assert t.calls - {0} == map[];
    }
  }

  /** The user is registered or not, with the same object, as before. */
  ghost predicate SameUser(c: Cache, r: Cache, h: Hash)
    requires c.Valid() && r.Valid()
  {
    && (h in r.registry <==> h in c.registry)
    && (h in c.registry ==> r.registry[h] == c.registry[h]
                            && r.objects[r.registry[h]] == c.objects[c.registry[h]])
  }

  /** A row concerns the user it names and nobody else. */
  lemma RowConcerns(c: Cache, row: Row)
    requires c.Valid()
    ensures var r := RefreshRow(c, row);
      && r.Valid() && (row.hash in r.registry <==> Entitled(row))
      && (row.hash in r.registry ==> Mirrors(r, row.hash, row))
      && forall h | h != row.hash :: SameUser(c, r, h)
  {
    RowEffect(c, row, row.hash);
    forall h | h != row.hash
      ensures SameUser(c, RefreshRow(c, row), h)
    {
      RowEffect(c, row, h);
    }
  }

  /** AddUser and the three Set calls, or DelUser, for one row. */
  method MirrorRow(c: Cache, row: Row, ghost s: State) returns (r: Cache, ghost steps: seq<Action>)
    requires Sound(c) && s.cache == c && s.calls == map[]
    ensures r == RefreshRow(c, row) && Sound(r)
    ensures OnlyCache(s, Run(s, steps)) && Run(s, steps).cache == r
    ensures row.hash in r.registry <==> row.quota < 0 || Add64(row.download, row.upload) < row.quota
    ensures row.hash in r.registry ==> Mirrors(r, row.hash, row)
    ensures forall h | h != row.hash :: SameUser(c, r, h)
  {
    RowConcerns(c, row);
    if Entitled(row) {
      AdmissionSteps(s, row);
      AddUserValid(c, row.hash);
      r := AddUser(c, row.hash);
      r := SetLimits(r, row);
      steps := [Add(0, row.hash), Store(0), Limit(row)];
    } else {
      r := DelUser(c, row.hash);
      if row.hash in c.registry {
        RemovalSteps(s, row.hash);
        steps := [Remove(0, row.hash)] + [Drop(0), Drop(0), Unregister(0)];
      } else {
        steps := [];
      }
    }
  }

  method MirrorRows(c: Cache, rows: seq<Row>, ghost s: State) returns (r: Cache, ghost trace: seq<Action>)
    requires Sound(c) && s.cache == c && s.calls == map[]
    ensures r == RefreshRows(c, rows) && Sound(r)
    ensures OnlyCache(s, Run(s, trace)) && Run(s, trace).cache == r
  {
    r, trace := c, [];
    for i := 0 to |rows|
      invariant r == RefreshRows(c, rows[..i]) && Sound(r)
      invariant OnlyCache(s, Run(s, trace)) && Run(s, trace).cache == r
    {
      ghost var steps;
      r, steps := MirrorRow(r, rows[i], Run(s, trace));
      RunAppend(s, trace, steps);
      trace := trace + steps;
      assert rows[..i + 1] == rows[..i] + [rows[i]];
      RowsAppend(c, rows[..i], rows[i]);
    }
    assert rows[..|rows|] == rows;
  }

  /** Removes a registered user if it has no row. */
  method SweepUser(c: Cache, seen: set<Hash>, h: Hash, ghost s: State) returns (r: Cache, ghost steps: seq<Action>)
    requires Sound(c) && s.cache == c && s.calls == map[] && h in c.registry
    ensures r == (if h in seen then c else DelUser(c, h)) && Sound(r)
    ensures OnlyCache(s, Run(s, steps)) && Run(s, steps).cache == r
  {
    r, steps := c, [];
    if h !in seen {
      RemovalSteps(s, h);
      r, steps := DelUser(c, h), [Remove(0, h)] + [Drop(0), Drop(0), Unregister(0)];
    }
  }

  /** Removes every registered user without a row. */
  method SweepUsers(c: Cache, rows: seq<Row>, ghost s: State) returns (r: Cache, ghost trace: seq<Action>)
    requires Sound(c) && s.cache == c && s.calls == map[]
    ensures Swept(c, Seen(rows), r) && Sound(r)
    ensures OnlyCache(s, Run(s, trace)) && Run(s, trace).cache == r
  {
    r, trace := c, [];
    var todo := c.registry.Keys;
    ghost var done: set<Hash> := {};
    while todo != {}
      invariant done !! todo && done + todo == c.registry.Keys
      invariant SweptIn(c, Seen(rows), done, r) && Sound(r)
      invariant OnlyCache(s, Run(s, trace)) && Run(s, trace).cache == r
      decreases todo
    {
      var h :| h in todo;
      ghost var steps;
      SweepOne(c, Seen(rows), done, r, h);
      r, steps := SweepUser(r, Seen(rows), h, Run(s, trace));
      RunAppend(s, trace, steps);
      trace := trace + steps;
      MoveOne(done, todo, h);
      todo, done := todo - {h}, done + {h};
    }
    SweptAll(c, Seen(rows), r);
  }

  /** The users of `done` that have no row are gone; all others are as they were. */
  ghost predicate SweptIn(c: Cache, seen: set<Hash>, done: set<Hash>, r: Cache)
    requires c.Valid()
  {
    && r.registry == (map h | h in c.registry && (h in seen || h !in done) :: c.registry[h])
    && |r.objects| == |c.objects|
    && forall h | h in c.registry ::
         r.objects[c.registry[h]] == if h in done && h !in seen
                                     then c.objects[c.registry[h]].(counter := Delta(0, 0))
                                     else c.objects[c.registry[h]]
  }

  lemma SweepOne(c: Cache, seen: set<Hash>, done: set<Hash>, r: Cache, h: Hash)
    requires c.Valid() && r.Valid() && SweptIn(c, seen, done, r)
    requires h in c.registry && h !in done
    ensures h in r.registry && SweptIn(c, seen, done + {h}, if h in seen then r else DelUser(r, h))
  {
  }

  lemma SweptAll(c: Cache, seen: set<Hash>, r: Cache)
    requires c.Valid() && SweptIn(c, seen, c.registry.Keys, r)
    ensures Swept(c, seen, r)
  {
  }

  /**
    Every row has got what its user's entry in the buffer has lost, upload the received bytes
    and download the sent ones, and nothing else of it has changed.
  */
  ghost predicate Settles(table: seq<Row>, buffer: Book, written: seq<Row>, after: Book) {
    && |written| == |table|
    && forall i | 0 <= i < |table| ::
         var row, h := table[i], table[i].hash;
         written[i] == row.(upload := row.upload + Get(buffer, h, Recv) - Get(after, h, Recv),
                            download := row.download + Get(buffer, h, Sent) - Get(after, h, Sent))
  }

  /** No statement takes effect and still reports failure. */
  ghost predicate Unambiguous(outcomes: nat -> Outcome) {
    forall k: nat :: outcomes(k) != FailedButApplied
  }

  lemma SettlesNothing(table: seq<Row>, buffer: Book)
    ensures Settles(table, buffer, table, buffer)
  {
  }

  lemma WroteTwice(s: State, t: State, u: State, middle: Book, rows: seq<Row>, after: Book, written: seq<Row>)
    requires Wrote(s, t, middle, rows) && Wrote(t, u, after, written)
    ensures Wrote(s, u, after, written)
  {
  }

  lemma SettlesTwice(table: seq<Row>, buffer: Book, rows: seq<Row>, middle: Book, written: seq<Row>, after: Book)
    requires Settles(table, buffer, rows, middle) && Settles(rows, middle, written, after)
    ensures Settles(table, buffer, written, after)
  {
  }

  lemma BatchSettles(buffer: Book, table: seq<Row>, batch: seq<Entry>)
    requires Sendable(buffer, batch)
    ensures Settles(table, buffer, ExecuteBatch(batch, table), buffer - HashSet(batch))
  {
    BatchCredits(batch, table);
    forall i | 0 <= i < |table|
      ensures var row, h, after := table[i], table[i].hash, buffer - HashSet(batch);
        Owing(batch, row) == row.(upload := row.upload + Get(buffer, h, Recv) - Get(after, h, Recv),
                                  download := row.download + Get(buffer, h, Sent) - Get(after, h, Sent))
    {
      SendableOwes(buffer, batch, table[i].hash, Recv);
      SendableOwes(buffer, batch, table[i].hash, Sent);
    }
  }

  /** Batches were sent, which left this buffer and this table and nothing else changed. */
  ghost predicate Wrote(s: State, t: State, after: Book, written: seq<Row>) {
    SameUsers(s, t) && t.hand == s.hand && t.pending == after && t.table == written
  }

  /** One batch: build the statement, execute it, and on success forget its entries. */
  method SendBatch(buffer: Book, table: seq<Row>, batch: seq<Entry>, outcome: Outcome, ghost rest: seq<Entry>,
                   ghost s: State)
    returns (ok: bool, after: Book, written: seq<Row>, ghost t: State)
    requires batch != [] && Buffers(buffer, batch + rest) && s.pending == buffer && s.table == table
    ensures ok == (outcome == Success)
    ensures t == DoFlush(s, batch, outcome)
    ensures Wrote(s, t, after, written)
    ensures ok ==> Buffers(after, rest)
    ensures !ok ==> after == buffer
    ensures outcome != FailedButApplied ==> Settles(table, buffer, written, after)
    ensures outcome == FailedButApplied ==> Settles(table, buffer, written, buffer - HashSet(batch))
  {
    FirstPart(buffer, batch, rest);
    BatchSettles(buffer, table, batch);
    FlushIs(s, batch, outcome);
    t := DoFlush(s, batch, outcome);
    var query, args := BuildTrafficUpdate(batch);
    written := if outcome != Failed then Execute(query, args, table) else table;
    ok := outcome == Success;
    after := buffer;
    if ok {
      after := DeleteAll(buffer, batch);
    }
  }

  /** The next batch: `size` entries from `start` on, or as many as are left. */
  method NextChunk(pending: seq<Entry>, start: nat, size: nat) returns (chunk: seq<Entry>)
    requires start < |pending| && size > 0
    ensures chunk != [] && Rest(pending, start) == chunk + Rest(pending, start + size)
    ensures chunk == pending[start..Upto(pending, start, size)]
  {
    var end := start + size;
    if end > |pending| {
      end := |pending|;
    }
    chunk := pending[start..end];
  }

  /** One round of the flush loop: the batch that starts at `start`. */
  method SendNext(buffer: Book, table: seq<Row>, pending: seq<Entry>, start: nat, batchSize: nat,
                  outcome: Outcome, ghost s: State)
    returns (ok: bool, after: Book, written: seq<Row>, ghost batch: seq<Entry>, ghost t: State)
    requires start < |pending| && batchSize > 0 && Buffers(buffer, Rest(pending, start))
    requires s.pending == buffer && s.table == table
    ensures ok == (outcome == Success) && t == DoFlush(s, batch, outcome)
    ensures Wrote(s, t, after, written)
    ensures batch == pending[start..Upto(pending, start, batchSize)]
    ensures if ok then Buffers(after, Rest(pending, start + batchSize)) else after == buffer
    ensures outcome != FailedButApplied ==> Settles(table, buffer, written, after)
  {
    var chunk := NextChunk(pending, start, batchSize);
    batch := chunk;
    ok, after, written, t := SendBatch(buffer, table, chunk, outcome, Rest(pending, start + batchSize), s);
  }

  lemma RunFlush(s: State, trace: seq<Action>, batch: seq<Entry>, outcome: Outcome)
    ensures Run(s, trace + [Flush(batch, outcome)]) == DoFlush(Run(s, trace), batch, outcome)
  {
    RunSnoc(s, trace, Flush(batch, outcome));
  }

  lemma FlushesSnoc(trace: seq<Action>, batch: seq<Entry>, outcomes: nat -> Outcome)
    requires Flushes(trace, true, outcomes)
    ensures var outcome := outcomes(|trace|);
      Flushes(trace + [Flush(batch, outcome)], outcome == Success, outcomes)
  {
  }

  /** The entries of the batches, one batch after the other. */
  ghost function InBatches(trace: seq<Action>): seq<Entry> {
    if trace == [] then []
    else InBatches(trace[..|trace| - 1]) + if trace[|trace| - 1].Flush? then trace[|trace| - 1].batch else []
  }

  /** The batches are the list cut into pieces of `size` from its start on; only a last piece may be shorter. */
  ghost predicate Chunked(trace: seq<Action>, entries: seq<Entry>, size: nat) {
    && InBatches(trace) <= entries
    && (forall i | 0 <= i < |trace| :: trace[i].Flush? && 0 < |trace[i].batch| <= size)
    && (forall i | 0 <= i < |trace| - 1 :: |trace[i].batch| == size)
    && (trace != [] && |trace[|trace| - 1].batch| < size ==> InBatches(trace) == entries)
  }

  ghost predicate AllFull(trace: seq<Action>, size: nat) {
    forall i | 0 <= i < |trace| :: trace[i].Flush? && |trace[i].batch| == size
  }

  /** Where the loop stands at `start` after the successful batches of `trace`. */
  ghost predicate Along(trace: seq<Action>, entries: seq<Entry>, start: nat, size: nat, outcomes: nat -> Outcome) {
    && Flushes(trace, true, outcomes) && Chunked(trace, entries, size)
    && InBatches(trace) == entries[..Upto(entries, start, 0)]
    && (start <= |entries| ==> AllFull(trace, size))
  }

  lemma AlongSnoc(trace: seq<Action>, entries: seq<Entry>, start: nat, size: nat, batch: seq<Entry>,
                  outcomes: nat -> Outcome)
    requires Along(trace, entries, start, size, outcomes) && start < |entries| && size > 0
    requires batch == entries[start..Upto(entries, start, size)]
    ensures var outcome := outcomes(|trace|);
      var longer := trace + [Flush(batch, outcome)];
      && Flushes(longer, outcome == Success, outcomes) && Chunked(longer, entries, size)
      && (outcome == Success ==> Along(longer, entries, start + size, size, outcomes))
  {
    FlushesSnoc(trace, batch, outcomes);
    ChunkedSnoc(trace, entries, start, size, batch, outcomes(|trace|));
  }

  lemma ChunkedSnoc(trace: seq<Action>, entries: seq<Entry>, start: nat, size: nat, batch: seq<Entry>, outcome: Outcome)
    requires AllFull(trace, size) && start < |entries| && InBatches(trace) == entries[..start] && size > 0
    requires batch == entries[start..Upto(entries, start, size)]
    ensures var longer := trace + [Flush(batch, outcome)];
      && Chunked(longer, entries, size) && InBatches(longer) == entries[..Upto(entries, start, size)]
      && (start + size <= |entries| ==> AllFull(longer, size))
  {
    var longer, end := trace + [Flush(batch, outcome)], Upto(entries, start, size);
    assert longer[..|trace|] == trace;
    assert entries[..start] + entries[start..end] == entries[..end];
    assert end == |entries| ==> entries[..end] == entries;
  }

  /** The end of the piece that begins at `start`. */
  function Upto(entries: seq<Entry>, start: nat, size: nat): (end: nat)
    ensures end <= |entries| && (start <= |entries| ==> start <= end)
  {
    if start + size <= |entries| then start + size else |entries|
  }

  /** What the loop has done and what it has still to do. */
  datatype Work = Work(now: State, trace: seq<Action>, after: Book, written: seq<Row>)

  ghost predicate Sending(s: State, w: Work, pending: seq<Entry>, start: nat, size: nat, outcomes: nat -> Outcome) {
    && Along(w.trace, pending, start, size, outcomes)
    && w.now == Run(s, w.trace) && Wrote(s, w.now, w.after, w.written)
    && Buffers(w.after, Rest(pending, start)) && Settles(s.table, s.pending, w.written, w.after)
  }

  /** How a flush may end. */
  ghost predicate Finished(s: State, w: Work, ok: bool, pending: seq<Entry>, size: nat, outcomes: nat -> Outcome) {
    && Flushes(w.trace, ok, outcomes) && Chunked(w.trace, pending, size) && (!ok ==> w.trace != [])
    && w.now == Run(s, w.trace) && Wrote(s, w.now, w.after, w.written)
    && (ok <==> w.after == map[]) && PartOf(w.after, s.pending)
    && (ok || Unambiguous(outcomes) ==> Settles(s.table, s.pending, w.written, w.after))
  }

  /** A flush touches the buffer and the table only, and what stays in the buffer is outstanding. */
  ghost predicate LeavesOthers(s: State, t: State) {
    && t.cache == s.cache && t.todo == s.todo && t.calls == s.calls && t.hand == s.hand
    && forall h | h in t.pending :: Outstanding(t.pending[h])
  }

  lemma FlushKeeps(s: State, w: Work, ok: bool, pending: seq<Entry>, size: nat, outcomes: nat -> Outcome)
    requires Finished(s, w, ok, pending, size, outcomes) && forall h | h in s.pending :: Outstanding(s.pending[h])
    ensures LeavesOthers(s, w.now) && w.now.pending == w.after && w.now.table == w.written
  {
  }

  lemma NothingToSend(s: State, size: nat, outcomes: nat -> Outcome)
    requires Buffers(s.pending, []) && size > 0
    ensures Finished(s, Work(Run(s, []), [], s.pending, s.table), true, [], size, outcomes)
  {
    SettlesNothing(s.table, s.pending);
  }

  lemma SendingStarts(s: State, pending: seq<Entry>, size: nat, outcomes: nat -> Outcome)
    requires Buffers(s.pending, pending)
    ensures Sending(s, Work(s, [], s.pending, s.table), pending, 0, size, outcomes)
  {
    assert Rest(pending, 0) == pending;
    SettlesNothing(s.table, s.pending);
  }

  lemma SendingEnds(s: State, w: Work, pending: seq<Entry>, start: nat, size: nat, outcomes: nat -> Outcome)
    requires Sending(s, w, pending, start, size, outcomes) && start >= |pending| && Buffers(s.pending, pending)
    ensures Finished(s, w, true, pending, size, outcomes)
  {
    RestPart(s.pending, pending, start, w.after);
  }

  /** One more batch: on success the loop goes on, on failure it has ended. */
  lemma SendingStep(s: State, w: Work, v: Work, batch: seq<Entry>, pending: seq<Entry>, start: nat, size: nat,
                    outcomes: nat -> Outcome)
    requires Sending(s, w, pending, start, size, outcomes) && start < |pending| && size > 0
    requires Buffers(s.pending, pending) && batch == pending[start..Upto(pending, start, size)]
    requires var outcome := outcomes(|w.trace|);
      && v.trace == w.trace + [Flush(batch, outcome)] && v.now == DoFlush(w.now, batch, outcome)
      && Wrote(w.now, v.now, v.after, v.written)
      && (if outcome == Success then Buffers(v.after, Rest(pending, start + size)) else v.after == w.after)
      && (outcome != FailedButApplied ==> Settles(w.written, w.after, v.written, v.after))
    ensures outcomes(|w.trace|) == Success ==> Sending(s, v, pending, start + size, size, outcomes)
    ensures outcomes(|w.trace|) != Success ==> Finished(s, v, false, pending, size, outcomes)
  {
    RunFlush(s, w.trace, batch, outcomes(|w.trace|));
    AlongSnoc(w.trace, pending, start, size, batch, outcomes);
    WroteTwice(s, w.now, v.now, w.after, w.written, v.after, v.written);
    if outcomes(|w.trace|) != FailedButApplied {
      SettlesTwice(s.table, s.pending, w.written, w.after, v.written, v.after);
    }
    RestPart(s.pending, pending, start, w.after);
  }

  /** The loop of flushPendingTraffic over the sorted buffer. */
  method SendBatches(buffer: Book, table: seq<Row>, pending: seq<Entry>, batchSize: nat,
                     outcomes: nat -> Outcome, ghost s: State)
    returns (ok: bool, after: Book, written: seq<Row>, ghost trace: seq<Action>)
    requires Buffers(buffer, pending) && batchSize > 0 && s.pending == buffer && s.table == table
    ensures Finished(s, Work(Run(s, trace), trace, after, written), ok, pending, batchSize, outcomes)
  {
    trace, after, written := [], buffer, table;
    var start, k := 0, 0;
    ghost var now := s;
    SendingStarts(s, pending, batchSize, outcomes);
    while start < |pending|
      invariant 0 <= start && k == |trace|
      invariant Sending(s, Work(now, trace, after, written), pending, start, batchSize, outcomes)
      decreases |pending| - start
    {
      ghost var w, batch := Work(now, trace, after, written), [];
      ok, after, written, batch, now := SendNext(after, written, pending, start, batchSize, outcomes(k), now);
      trace := trace + [Flush(batch, outcomes(k))];
      SendingStep(s, w, Work(now, trace, after, written), batch, pending, start, batchSize, outcomes);
      if !ok {
        return;
      }
      start, k := start + batchSize, k + 1;
    }
    SendingEnds(s, Work(now, trace, after, written), pending, start, batchSize, outcomes);
    ok := true;
  }

  /** The flush of a sorted buffer; a batch size that is not positive is the default. */
  method FlushAll(buffer: Book, table: seq<Row>, pending: seq<Entry>, trafficBatchSize: int,
                  outcomes: nat -> Outcome, ghost s: State)
    returns (ok: bool, after: Book, written: seq<Row>, ghost w: Work)
    requires Buffers(buffer, pending) && s.pending == buffer && s.table == table
    requires forall h | h in buffer :: Outstanding(buffer[h])
    ensures w.after == after && w.written == written
    ensures Finished(s, w, ok, pending, if trafficBatchSize > 0 then trafficBatchSize else 500, outcomes)
    ensures LeavesOthers(s, w.now) && w.now.pending == after && w.now.table == written
  {
    var batchSize := trafficBatchSize;
    if batchSize <= 0 {
      batchSize := DEFAULT_TRAFFIC_BATCH_SIZE;
    }
    if |pending| == 0 {
      ok, after, written, w := true, buffer, table, Work(Run(s, []), [], buffer, table);
      NothingToSend(s, batchSize, outcomes);
    } else {
      ghost var trace;
      ok, after, written, trace := SendBatches(buffer, table, pending, batchSize, outcomes, s);
      w := Work(Run(s, trace), trace, after, written);
    }
    FlushKeeps(s, w, ok, pending, batchSize, outcomes);
  }

  /** A buffer listed by the rest of the sorted list is part of the original buffer. */
  lemma RestPart(buffer: Book, pending: seq<Entry>, start: nat, after: Book)
    requires Buffers(buffer, pending) && Buffers(after, Rest(pending, start))
    ensures PartOf(after, buffer)
    ensures after == map[] <==> start >= |pending|
  {
    forall h | h in after
      ensures h in buffer && after[h] == buffer[h]
    {
      var i :| 0 <= i < |Rest(pending, start)| && Rest(pending, start)[i].hash == h;
      assert Rest(pending, start)[i] in Rest(pending, start);
      assert pending[start + i] in pending;
    }
    if start < |pending| {
      assert Rest(pending, start)[0] in Rest(pending, start);
    }
  }

  /** What is left of the sorted list from `start` on. */
  function Rest(pending: seq<Entry>, start: nat): seq<Entry> {
    if start <= |pending| then pending[start..] else []
  }

  method DeleteAll(pending: Book, batch: seq<Entry>) returns (r: Book)
    ensures r == pending - HashSet(batch)
  {
    r := pending;
    for n := 0 to |batch|
      invariant r == pending - HashSet(batch[..n])
    {
      assert HashSet(batch[..n + 1]) == HashSet(batch[..n]) + {batch[n].hash};
      r := r - {batch[n].hash};
    }
    assert batch[..|batch|] == batch;
  }

  /** What is still pending was pending before, unchanged. */
  ghost predicate PartOf(after: Book, before: Book) {
    forall h | h in after :: h in before && after[h] == before[h]
  }

  /** `entries` lists the buffer: every pending user once, with what is pending for it. */
  ghost predicate Buffers(pending: Book, entries: seq<Entry>) {
    && Distinct(entries)
    && (forall e | e in entries :: e.hash in pending && pending[e.hash] == e.delta)
    && (forall h | h in pending :: h in HashSet(entries))
  }

  /** Flush steps with the given outcomes, all successful except the last one of a failed flush. */
  ghost predicate Flushes(trace: seq<Action>, ok: bool, outcomes: nat -> Outcome) {
    forall i | 0 <= i < |trace| ::
      && trace[i].Flush? && trace[i].outcome == outcomes(i)
      && (trace[i].outcome == Success <==> ok || i < |trace| - 1)
  }

  lemma FlushIs(s: State, batch: seq<Entry>, outcome: Outcome)
    requires Sendable(s.pending, batch)
    ensures var t := DoFlush(s, batch, outcome);
      && SameUsers(s, t) && t.hand == s.hand
      && t.table == (if outcome != Failed then ExecuteBatch(batch, s.table) else s.table)
      && t.pending == (if outcome == Success then s.pending - HashSet(batch) else s.pending)
  {
  }

  /** The first part of the listed buffer can be sent, and sending it leaves the rest. */
  lemma FirstPart(pending: Book, batch: seq<Entry>, rest: seq<Entry>)
    requires Buffers(pending, batch + rest) && batch != []
    ensures Sendable(pending, batch)
    ensures Buffers(pending - HashSet(batch), rest)
  {
    var all := batch + rest;
    forall i | 0 <= i < |batch|
      ensures batch[i] in all && batch[i] == all[i]
    {
    }
    forall i | 0 <= i < |rest|
      ensures rest[i] in all && rest[i] == all[|batch| + i]
      ensures rest[i].hash !in HashSet(batch)
    {
      assert rest[i] == all[|batch| + i];
      forall j | 0 <= j < |batch|
        ensures batch[j].hash != rest[i].hash
      {
        assert batch[j] == all[j];
      }
    }
    forall h | h in pending - HashSet(batch)
      ensures h in HashSet(rest)
    {
      assert forall j | 0 <= j < |batch| :: batch[j].hash != h && all[j] == batch[j];
      var i :| 0 <= i < |all| && all[i].hash == h;
      assert rest[i - |batch|].hash == h;
    }
  }

  lemma MoveOne(done: set<Hash>, todo: set<Hash>, h: Hash)
    requires done !! todo && h in todo
    ensures (done + {h}) !! (todo - {h})
    ensures (done + {h}) + (todo - {h}) == done + todo
  {
  }

  lemma QuietAppend(trace: seq<Action>, o: nat)
    requires Quiet(trace)
    ensures Quiet(trace + [TakeSent(o), TakeRecv, Merge])
  {
  }

  /** Steps of the collector alone: nothing dropped, nothing flushed. */
  ghost predicate Quiet(trace: seq<Action>) {
    forall a | a in trace :: a.List? || a.TakeSent? || a.TakeRecv? || a.Merge?
  }

  function Names(users: seq<Hash>): set<Hash> {
    set h | h in users
  }

  ghost predicate Lists(users: seq<Hash>, names: set<Hash>) {
    Names(users) == names && forall i, j | 0 <= i < j < |users| :: users[i] != users[j]
  }

  lemma ListsSnoc(users: seq<Hash>, names: set<Hash>, h: Hash)
    requires Lists(users, names) && h !in names
    ensures Lists(users + [h], names + {h})
  {
    assert forall i | 0 <= i < |users| :: users[i] in Names(users);
  }

  /** The objects of the registered users of a list. */
  ghost function Objects(c: Cache, users: seq<Hash>): set<int> {
    set h | h in users && h in c.registry :: c.registry[h]
  }

  lemma ObjectsSnoc(c: Cache, users: seq<Hash>, h: Hash)
    requires h in c.registry
    ensures Objects(c, users + [h]) == Objects(c, users) + {c.registry[h]}
  {
  }

  /** Visiting the i-th user of the list. */
  lemma NextUser(c: Cache, users: seq<Hash>, i: nat)
    requires c.Valid() && Lists(users, c.registry.Keys) && i < |users|
    ensures users[i] in c.registry && users[i] !in Names(users[..i])
    ensures Names(users[..i + 1]) == Names(users[..i]) + {users[i]}
    ensures c.registry[users[i]] in Objects(c, users[i..])
    ensures Objects(c, users[i + 1..]) == Objects(c, users[i..]) - {c.registry[users[i]]}
  {
    assert users[i] in Names(users);
    NamesNext(users, i);
    ObjectsNext(c, users, i);
  }

  lemma NamesNext(users: seq<Hash>, i: nat)
    requires i < |users| && forall j, k | 0 <= j < k < |users| :: users[j] != users[k]
    ensures users[i] !in Names(users[..i])
    ensures Names(users[..i + 1]) == Names(users[..i]) + {users[i]}
  {
    assert users[..i + 1] == users[..i] + [users[i]];
  }

  lemma ObjectsNext(c: Cache, users: seq<Hash>, i: nat)
    requires c.Valid() && i < |users| && users[i] in c.registry
    requires forall j, k | 0 <= j < k < |users| :: users[j] != users[k]
    ensures c.registry[users[i]] in Objects(c, users[i..])
    ensures Objects(c, users[i + 1..]) == Objects(c, users[i..]) - {c.registry[users[i]]}
  {
    var h := users[i];
    assert users[i..] == [h] + users[i + 1..];
    assert h in users[i..] && h !in users[i + 1..];
  }

  lemma AllUsers(c: Cache, users: seq<Hash>)
    requires Lists(users, c.registry.Keys)
    ensures Names(users[..|users|]) == c.registry.Keys && Objects(c, users[|users|..]) == {}
  {
    assert users[..|users|] == users;
  }

  /** The users in `done` have empty counters; the other users' objects are as they were. */
  ghost predicate Emptied(c: Cache, done: set<Hash>, objects: seq<User>)
    requires c.Valid()
  {
    && |objects| == |c.objects|
    && forall h | h in c.registry ::
         objects[c.registry[h]] == if h in done then c.objects[c.registry[h]].(counter := Delta(0, 0))
                                   else c.objects[c.registry[h]]
  }

  /** The bytes of the users in `done` were added to the buffer. */
  ghost predicate Buffered(c: Cache, pending: Book, done: set<Hash>, after: Book)
    requires c.Valid()
  {
    forall k, d :: Get(after, k, d) == Get(pending, k, d) +
      if k in done && k in c.registry then c.objects[c.registry[k]].counter.At(d) else 0
  }

  lemma EmptiedStep(c: Cache, done: set<Hash>, objects: seq<User>, h: Hash)
    requires c.Valid() && Emptied(c, done, objects) && h in c.registry && h !in done
    ensures var o := c.registry[h];
      Emptied(c, done + {h}, objects[o := objects[o].(counter := Delta(0, 0))])
  {
  }

  lemma BufferedStep(c: Cache, pending: Book, done: set<Hash>, middle: Book, h: Hash, after: Book)
    requires c.Valid() && Buffered(c, pending, done, middle) && h in c.registry && h !in done
    requires forall k, d :: Get(after, k, d)
               == Get(middle, k, d) + if k == h then c.objects[c.registry[h]].counter.At(d) else 0
    ensures Buffered(c, pending, done + {h}, after)
  {
  }
}
