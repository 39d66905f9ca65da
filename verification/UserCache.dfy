/**
  The in-memory users (statistic/memory/memory.go) as a mirror of the users table
  (statistic/mysql/mysql.go, refreshUsers).
*/
module UserCache {
  import opened Numbers
  import opened Traffic
  import opened TrafficUpdate

  /** A user object.  A speed limit of zero is the absent limiter. */
  datatype User = User(
    hash: Hash,
    counter: Delta,
    quota: int,
    sendLimit: int,
    recvLimit: int,
    ipLimit: int,
    ips: map<string, int>)

  /** All user objects ever created, and the ones the authenticator still hands out. */
  datatype Cache = Cache(objects: seq<User>, registry: map<Hash, int>) {
    ghost predicate Valid() {
      && (forall h | h in registry :: 0 <= registry[h] < |objects| && objects[registry[h]].hash == h)
    }
  }

  const EMPTY := Cache([], map[])

  function NewUser(h: Hash): User {
    User(h, Delta(0, 0), -1, 0, 0, 0, map[])
  }

  /** A new object is stored under the hash, whatever stood there. */
  function StoreUser(c: Cache, h: Hash): Cache {
    Cache(c.objects + [NewUser(h)], c.registry[h := |c.objects|])
  }

  function AddUser(c: Cache, h: Hash): Cache {
    if h in c.registry then c else StoreUser(c, h)
  }

  /** Removal closes the user first, which discards its counters. */
  function DelUser(c: Cache, h: Hash): Cache
    requires c.Valid()
  {
    if h !in c.registry then c
    else
      var o := c.registry[h];
      Cache(c.objects[o := c.objects[o].(counter := Delta(0, 0))], c.registry - {h})
  }

  function Limiter(n: int): int {
    if n <= 0 then 0 else n
  }

  function WithLimits(u: User, row: Row): User {
    u.(sendLimit := Limiter(row.speedUp), recvLimit := Limiter(row.speedDown),
       ipLimit := row.ipLimit, quota := row.quota)
  }

  function SetLimits(c: Cache, row: Row): Cache
    requires c.Valid()
  {
    if row.hash !in c.registry then c
    else
      var o := c.registry[row.hash];
      c.(objects := c.objects[o := WithLimits(c.objects[o], row)])
  }

  /** int64 addition wraps around. */
  function Add64(a: int, b: int): (r: int)
    ensures -TWO63 <= r < TWO63 && (r - (a + b)) % TWO64 == 0
    ensures -TWO63 <= a + b < TWO63 ==> r == a + b
  {
    var s := (a + b) % TWO64;
    if s < TWO63 then s else s - TWO64
  }

  predicate Entitled(row: Row) {
    Add64(row.download, row.upload) < row.quota || row.quota < 0
  }

  function RefreshRow(c: Cache, row: Row): Cache
    requires c.Valid()
  {
    if Entitled(row) then
      AddUserValid(c, row.hash);
      SetLimits(AddUser(c, row.hash), row)
    else DelUser(c, row.hash)
  }

  lemma AddUserValid(c: Cache, h: Hash)
    requires c.Valid()
    ensures AddUser(c, h).Valid()
  {
  }

  lemma RefreshRowValid(c: Cache, row: Row)
    requires c.Valid()
    ensures RefreshRow(c, row).Valid()
  {
    AddUserValid(c, row.hash);
  }

  function RefreshRows(c: Cache, rows: seq<Row>): (r: Cache)
    requires c.Valid()
    ensures r.Valid()
    decreases |rows|
  {
    if rows == [] then c
    else
      RefreshRowValid(c, rows[0]);
      RefreshRows(RefreshRow(c, rows[0]), rows[1..])
  }

  function Seen(rows: seq<Row>): set<Hash> {
    set i | 0 <= i < |rows| :: rows[i].hash
  }

  /** `r` is `c` after removing every registered user that is not in `seen`. */
  ghost predicate Swept(c: Cache, seen: set<Hash>, r: Cache)
    requires c.Valid()
  {
    && r.registry == (map h | h in c.registry && h in seen :: c.registry[h])
    && |r.objects| == |c.objects|
    && forall h | h in c.registry ::
         r.objects[c.registry[h]] == if h in seen then c.objects[c.registry[h]]
                                     else c.objects[c.registry[h]].(counter := Delta(0, 0))
  }

  // ---------- the last row of a user decides ----------

  predicate HasRow(rows: seq<Row>, h: Hash) {
    exists i :: 0 <= i < |rows| && rows[i].hash == h
  }

  function LastRow(rows: seq<Row>, h: Hash): (r: Row)
    requires HasRow(rows, h)
    ensures r in rows && r.hash == h
  {
    var n := |rows| - 1;
    if rows[n].hash == h then rows[n] else LastRow(rows[..n], h)
  }

  lemma {:induction false} LastIsLast(rows: seq<Row>, h: Hash) returns (k: nat)
    requires HasRow(rows, h)
    ensures k < |rows| && rows[k] == LastRow(rows, h) && forall j | k < j < |rows| :: rows[j].hash != h
    decreases |rows|
  {
    var n := |rows| - 1;
    if rows[n].hash == h {
      k := n;
    } else {
      k := LastIsLast(rows[..n], h);
    }
  }

  predicate AllEntitled(rows: seq<Row>, h: Hash) {
    forall i | 0 <= i < |rows| && rows[i].hash == h :: Entitled(rows[i])
  }

  /** The object registered for `h` carries the limits of `row`. */
  ghost predicate Mirrors(c: Cache, h: Hash, row: Row) {
    && h in c.registry && 0 <= c.registry[h] < |c.objects|
    && c.objects[c.registry[h]].hash == h && Carries(c.objects[c.registry[h]], row)
  }

  /** The user has the speed limits, the IP limit and the quota of the row; a speed that is not positive is no limit. */
  predicate Carries(u: User, row: Row) {
    && u.sendLimit == (if row.speedUp > 0 then row.speedUp else 0)
    && u.recvLimit == (if row.speedDown > 0 then row.speedDown else 0)
    && u.ipLimit == row.ipLimit
    && u.quota == row.quota
  }

  lemma {:induction false} RowsAppend(c: Cache, rows: seq<Row>, row: Row)
    requires c.Valid()
    ensures RefreshRows(c, rows + [row]) == RefreshRow(RefreshRows(c, rows), row)
    decreases |rows|
  {
    if rows == [] {
      assert rows + [row] == [row] && [row][1..] == [];
      RefreshRowValid(c, row);
      assert RefreshRows(RefreshRow(c, row), []) == RefreshRow(c, row);
    } else {
      assert (rows + [row])[1..] == rows[1..] + [row];
      RefreshRowValid(c, rows[0]);
      RowsAppend(RefreshRow(c, rows[0]), rows[1..], row);
    }
  }

  /** What one row does to the user it names and to everybody else. */
  lemma RowEffect(c: Cache, row: Row, h: Hash)
    requires c.Valid()
    ensures var r := RefreshRow(c, row);
      && r.Valid() && |c.objects| <= |r.objects|
      && (h != row.hash ==>
            && (h in r.registry <==> h in c.registry)
            && (h in c.registry ==> r.registry[h] == c.registry[h]
                                    && r.objects[r.registry[h]] == c.objects[c.registry[h]]))
      && (h == row.hash ==>
            && (h in r.registry <==> Entitled(row))
            && (Entitled(row) ==> Mirrors(r, h, row))
            && (Entitled(row) && h in c.registry ==>
                  && r.registry[h] == c.registry[h]
                  && r.objects[r.registry[h]] == WithLimits(c.objects[c.registry[h]], row))
            && (Entitled(row) && h !in c.registry ==>
                  && r.registry[h] == |c.objects|
                  && r.objects[r.registry[h]] == WithLimits(NewUser(h), row)))
  {
    RefreshRowValid(c, row);
    AddUserValid(c, row.hash);
    if h != row.hash && h in c.registry && row.hash in c.registry {
      assert c.registry[h] != c.registry[row.hash];
    }
  }

  /** The object a user had before the refresh is the one it has afterwards, limits apart. */
  ghost predicate SameObject(c: Cache, r: Cache, h: Hash)
    requires c.Valid() && r.Valid() && h in c.registry && h in r.registry
  {
    && r.registry[h] == c.registry[h]
    && r.objects[r.registry[h]].counter == c.objects[c.registry[h]].counter
    && r.objects[r.registry[h]].ips == c.objects[c.registry[h]].ips
  }

  /** An object made during the refresh: nothing counted, no address. */
  ghost predicate FreshObject(c: Cache, r: Cache, h: Hash)
    requires c.Valid() && r.Valid() && h in r.registry
  {
    && r.registry[h] >= |c.objects|
    && r.objects[r.registry[h]].counter == Delta(0, 0)
    && r.objects[r.registry[h]].ips == map[]
  }

  /** What the rows do to the user `h`: nothing without a row of its own, else what its last row says. */
  ghost predicate Effect(c: Cache, rows: seq<Row>, h: Hash, r: Cache)
    requires c.Valid() && r.Valid()
  {
    && |c.objects| <= |r.objects|
    && (!HasRow(rows, h) ==>
          && (h in r.registry <==> h in c.registry)
          && (h in c.registry ==> r.registry[h] == c.registry[h]
                                  && r.objects[r.registry[h]] == c.objects[c.registry[h]]))
    && (HasRow(rows, h) ==>
          && (h in r.registry <==> Entitled(LastRow(rows, h)))
          && (h in r.registry ==> Mirrors(r, h, LastRow(rows, h)))
          && (h in r.registry && h in c.registry && AllEntitled(rows, h) ==> SameObject(c, r, h))
          && (h in r.registry && !(h in c.registry && AllEntitled(rows, h)) ==> FreshObject(c, r, h)))
  }

  lemma RowsSnoc(rows: seq<Row>, row: Row, h: Hash)
    ensures HasRow(rows + [row], h) <==> HasRow(rows, h) || row.hash == h
    ensures AllEntitled(rows + [row], h) <==> AllEntitled(rows, h) && (row.hash == h ==> Entitled(row))
    ensures row.hash == h ==> LastRow(rows + [row], h) == row
    ensures row.hash != h && HasRow(rows, h) ==> LastRow(rows + [row], h) == LastRow(rows, h)
  {
    var all := rows + [row];
    assert all[|rows|] == row && all[..|rows|] == rows;
    assert forall i | 0 <= i < |rows| :: all[i] == rows[i];
  }

  /** A row of somebody else. */
  lemma OtherRow(c: Cache, rows: seq<Row>, row: Row, mid: Cache, h: Hash)
    requires c.Valid() && mid.Valid() && Effect(c, rows, h, mid) && row.hash != h
    ensures RefreshRow(mid, row).Valid() && Effect(c, rows + [row], h, RefreshRow(mid, row))
  {
    RowEffect(mid, row, h);
    RowsSnoc(rows, row, h);
  }

  /** A row of the user itself. */
  lemma OwnRow(c: Cache, rows: seq<Row>, row: Row, mid: Cache, h: Hash)
    requires c.Valid() && mid.Valid() && Effect(c, rows, h, mid) && row.hash == h
    ensures RefreshRow(mid, row).Valid() && Effect(c, rows + [row], h, RefreshRow(mid, row))
  {
    RowEffect(mid, row, h);
    RowsSnoc(rows, row, h);
  }

  lemma {:induction false} RowsEffect(c: Cache, rows: seq<Row>, h: Hash)
    requires c.Valid()
    ensures Effect(c, rows, h, RefreshRows(c, rows))
    decreases |rows|
  {
    if rows != [] {
      var n := |rows| - 1;
      var front, row := rows[..n], rows[n];
      assert rows == front + [row];
      RowsAppend(c, front, row);
      RowsEffect(c, front, h);
      if row.hash == h {
        OwnRow(c, front, row, RefreshRows(c, front), h);
      } else {
        OtherRow(c, front, row, RefreshRows(c, front), h);
      }
    }
  }

  /**
    The mirror: exactly the users whose last row entitles them are registered, with that
    row's limits; those who were registered and never lost entitlement on the way keep
    their object with its live counters and addresses, all others start afresh.
  */
  ghost predicate Agrees(c: Cache, rows: seq<Row>, r: Cache)
    requires c.Valid() && r.Valid()
  {
    forall h: Hash ::
      && (h in r.registry <==> HasRow(rows, h) && Entitled(LastRow(rows, h)))
      && (h in r.registry ==>
            && Mirrors(r, h, LastRow(rows, h))
            && (if h in c.registry && AllEntitled(rows, h) then SameObject(c, r, h)
                else FreshObject(c, r, h)))
  }

  lemma SweptValid(c: Cache, seen: set<Hash>, r: Cache)
    requires c.Valid() && Swept(c, seen, r)
    ensures r.Valid()
  {
  }

  /** After a refresh that read every row, the cache agrees with the table. */
  lemma RefreshAgrees(c: Cache, rows: seq<Row>, r: Cache)
    requires c.Valid() && Swept(RefreshRows(c, rows), Seen(rows), r)
    ensures r.Valid() && Agrees(c, rows, r)
  {
    var mid := RefreshRows(c, rows);
    SweptValid(mid, Seen(rows), r);
    forall h: Hash
      ensures (h in r.registry <==> HasRow(rows, h) && Entitled(LastRow(rows, h)))
      ensures h in r.registry ==>
            && Mirrors(r, h, LastRow(rows, h))
            && (if h in c.registry && AllEntitled(rows, h) then SameObject(c, r, h)
                else FreshObject(c, r, h))
    {
      RowsEffect(c, rows, h);
      assert HasRow(rows, h) <==> h in Seen(rows);
    }
  }
}
