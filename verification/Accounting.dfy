/**
  Connection accounting: the per-user IP table and connection count
  (statistic/memory/memory.go), taken in Auth and given back in the once-only Close of an
  inbound connection (tunnel/trojan/server.go), next to the active-connections gauge.
*/
module Accounting {

  /** The part of a user guarded by ipLock. */
  datatype Limits = Limits(
    connNum: int,
    ipNum: int,
    ipTable: map<string, int>,
    maxIP: int,
    maxConn: int)

  function NewLimits(maxConn: int): Limits {
    Limits(0, 0, map[], 0, maxConn)
  }

  /** AddIP: the new table and whether the connection is admitted. */
  function Admit(u: Limits, ip: string): (Limits, bool) {
    if u.maxConn > 0 && u.connNum + 1 > u.maxConn then (u, false)
    else if u.maxIP <= 0 then (u.(connNum := u.connNum + 1), true)
    else if ip in u.ipTable then
      (u.(ipTable := u.ipTable[ip := u.ipTable[ip] + 1], connNum := u.connNum + 1), true)
    else if u.ipNum + 1 > u.maxIP then (u, false)
    else
      (u.(ipTable := u.ipTable[ip := 1], ipNum := u.ipNum + 1, connNum := u.connNum + 1), true)
  }

  /** DelIP. */
  function Release(u: Limits, ip: string): (Limits, bool) {
    var connNum := if u.connNum > 0 then u.connNum - 1 else u.connNum;
    if u.maxIP <= 0 then (u.(connNum := connNum), true)
    else if ip !in u.ipTable then (u, false)
    else if u.ipTable[ip] <= 1 then
      (u.(ipTable := u.ipTable - {ip}, ipNum := u.ipNum - 1, connNum := connNum), true)
    else (u.(ipTable := u.ipTable[ip := u.ipTable[ip] - 1], connNum := connNum), true)
  }

  /** The same two operations on the user object's own fields. */
  class UserLimits {
    var connNum: int
    var ipNum: int
    var ipTable: map<string, int>
    var maxIP: int
    var maxConn: int

    function Value(): Limits
      reads this
    {
      Limits(connNum, ipNum, ipTable, maxIP, maxConn)
    }

    constructor (cap: int)
      ensures Value() == NewLimits(cap)
    {
      connNum, ipNum, ipTable, maxIP, maxConn := 0, 0, map[], 0, cap;
    }

    method AddIP(ip: string) returns (ok: bool)
      modifies this
      ensures (Value(), ok) == Admit(old(Value()), ip)
      ensures ok <==> (old(maxConn <= 0 || connNum < maxConn)
                       && old(maxIP <= 0 || ip in ipTable || ipNum < maxIP))
      ensures connNum == old(connNum) + if ok then 1 else 0
      ensures maxIP == old(maxIP) && maxConn == old(maxConn)
      ensures if ok && maxIP > 0
        then ipTable == old(ipTable)[ip := (if ip in old(ipTable) then old(ipTable)[ip] else 0) + 1]
             && ipNum == old(ipNum) + if ip in old(ipTable) then 0 else 1
        else ipTable == old(ipTable) && ipNum == old(ipNum)
    {
      if maxConn > 0 && connNum + 1 > maxConn {
        return false;
      }
      if maxIP <= 0 {
        connNum := connNum + 1;
        return true;
      }
      if ip in ipTable {
        var count := ipTable[ip];
        ipTable := ipTable[ip := count + 1];
        connNum := connNum + 1;
        return true;
      }
      if ipNum + 1 > maxIP {
        return false;
      }
      ipTable := ipTable[ip := 1];
      ipNum := ipNum + 1;
      connNum := connNum + 1;
      return true;
    }

    method DelIP(ip: string) returns (ok: bool)
      modifies this
      ensures (Value(), ok) == Release(old(Value()), ip)
      ensures ok <==> old(maxIP <= 0 || ip in ipTable)
      ensures connNum == old(connNum) - if ok && old(connNum) > 0 then 1 else 0
      ensures maxIP == old(maxIP) && maxConn == old(maxConn)
      ensures if ok && maxIP > 0
        then (if old(ipTable)[ip] > 1 then ipTable == old(ipTable)[ip := old(ipTable)[ip] - 1] && ipNum == old(ipNum)
              else ipTable == old(ipTable) - {ip} && ipNum == old(ipNum) - 1)
        else ipTable == old(ipTable) && ipNum == old(ipNum)
    {
      if maxIP <= 0 {
        if connNum > 0 {
          connNum := connNum - 1;
        }
        return true;
      }
      if ip !in ipTable {
        return false;
      }
      var count := ipTable[ip];
      if count <= 1 {
        ipTable := ipTable - {ip};
        ipNum := ipNum - 1;
      } else {
        ipTable := ipTable[ip := count - 1];
      }
      if connNum > 0 {
        connNum := connNum - 1;
      }
      return true;
    }
  }

  // ---------- the server: many connections of many users ----------

  /**
    Where an authenticated connection stands.  Auth admits it and then bumps the gauge;
    the body of closeOnce gives the address back and then drops the gauge.
  */
  datatype Phase = Admitted | Open | Released | Closed

  datatype Conn = Conn(user: nat, ip: string, phase: Phase)

  datatype Server = Server(users: map<nat, Limits>, conns: map<nat, Conn>, gauge: int)

  datatype Action =
    | AddUser(user: nat, maxConn: int)
    | SetIPLimit(user: nat, limit: int)
    | AuthAdmit(conn: nat, user: nat, ip: string)
    | AuthCount(conn: nat)
    | CloseRelease(conn: nat)
    | CloseDiscount(conn: nat)

  /**
    One atomic step.  Closing a connection a second time, by the relay, by a full accept
    queue or by the cutoff watcher, finds closeOnce spent and does nothing.
  */
  function Do(s: Server, a: Action): Server {
    match a
    case AddUser(u, cap) =>
      if u in s.users then s else s.(users := s.users[u := NewLimits(cap)])
    case SetIPLimit(u, n) =>
      if u in s.users then s.(users := s.users[u := s.users[u].(maxIP := n)]) else s
    case AuthAdmit(c, u, ip) =>
      if c in s.conns || u !in s.users then s else
      var (limits, ok) := Admit(s.users[u], ip);
      if ok then s.(users := s.users[u := limits], conns := s.conns[c := Conn(u, ip, Admitted)])
      else s.(users := s.users[u := limits])
    case AuthCount(c) =>
      if c in s.conns && s.conns[c].phase == Admitted then
        s.(conns := s.conns[c := s.conns[c].(phase := Open)], gauge := s.gauge + 1)
      else s
    case CloseRelease(c) =>
      if c in s.conns && s.conns[c].phase == Open && s.conns[c].user in s.users then
        var u := s.conns[c].user;
        s.(users := s.users[u := Release(s.users[u], s.conns[c].ip).0],
           conns := s.conns[c := s.conns[c].(phase := Released)])
      else s
    case CloseDiscount(c) =>
      if c in s.conns && s.conns[c].phase == Released then
        s.(conns := s.conns[c := s.conns[c].(phase := Closed)], gauge := s.gauge - 1)
      else s
  }

  function Run(s: Server, actions: seq<Action>): Server
    decreases |actions|
  {
    if actions == [] then s else Run(Do(s, actions[0]), actions[1..])
  }

  const START := Server(map[], map[], 0)

  // ---------- what the numbers count ----------

  predicate IsLive(c: Conn) {
    c.phase == Admitted || c.phase == Open
  }

  /** The connections of user `u` that hold a place, each with its address. */
  function Held(s: Server, u: nat): map<nat, string> {
    map c | c in s.conns && s.conns[c].user == u && IsLive(s.conns[c]) :: s.conns[c].ip
  }

  function From(held: map<nat, string>, ip: string): set<nat> {
    set c | c in held && held[c] == ip
  }

  predicate IsGauged(c: Conn) {
    c.phase == Open || c.phase == Released
  }

  /** Connections the gauge counts. */
  function Gauged(s: Server): set<nat> {
    set c | c in s.conns && IsGauged(s.conns[c])
  }

  /** Authenticated connections of all users that are not closed. */
  function AllLive(s: Server): set<nat> {
    set c | c in s.conns && IsLive(s.conns[c])
  }

  /** No handshake and no Close is between its two updates. */
  ghost predicate Settled(s: Server) {
    forall c | c in s.conns :: s.conns[c].phase == Open || s.conns[c].phase == Closed
  }

  /** The table lists exactly the addresses in use, with their number of connections. */
  ghost predicate TableExact(table: map<string, int>, held: map<nat, string>) {
    && (forall c | c in held :: held[c] in table)
    && (forall ip | ip in table :: table[ip] == |From(held, ip)| > 0)
  }

  ghost predicate Exact(t: Limits, held: map<nat, string>) {
    && t.connNum == |held|
    && (t.maxConn > 0 ==> t.connNum <= t.maxConn)
    && t.ipNum == |t.ipTable|
    && (if t.maxIP > 0 then TableExact(t.ipTable, held) else t.ipTable == map[])
  }

  ghost predicate Inv(s: Server) {
    && (forall c | c in s.conns :: s.conns[c].user in s.users)
    && (forall u | u in s.users :: Exact(s.users[u], Held(s, u)))
    && s.gauge == |Gauged(s)|
  }

  // ---------- one user: both operations keep the account exact ----------

  lemma FromAdded(held: map<nat, string>, c: nat, ip: string)
    requires c !in held
    ensures From(held[c := ip], ip) == From(held, ip) + {c}
    ensures forall other | other != ip :: From(held[c := ip], other) == From(held, other)
  {
  }

  lemma FromRemoved(held: map<nat, string>, c: nat)
    requires c in held
    ensures From(held - {c}, held[c]) == From(held, held[c]) - {c}
    ensures forall other | other != held[c] :: From(held - {c}, other) == From(held, other)
  {
  }

  lemma TableAdmits(table: map<string, int>, held: map<nat, string>, c: nat, ip: string)
    requires TableExact(table, held) && c !in held
    ensures TableExact(table[ip := if ip in table then table[ip] + 1 else 1], held[c := ip])
  {
    FromAdded(held, c, ip);
    if ip !in table {
      assert From(held, ip) == {};
    }
  }

  lemma TableReleases(table: map<string, int>, held: map<nat, string>, c: nat)
    requires TableExact(table, held) && c in held
    ensures var ip := held[c];
      TableExact(if table[ip] <= 1 then table - {ip} else table[ip := table[ip] - 1], held - {c})
  {
    FromRemoved(held, c);
    var ip := held[c];
    assert c in From(held, ip);
    if table[ip] <= 1 {
      assert From(held, ip) == {c} by { OneElement(From(held, ip), c); }
      forall d | d in held - {c}
        ensures held[d] in table - {ip}
      {
        assert held[d] == ip ==> d in From(held, ip);
      }
    }
  }

  lemma OneElement(s: set<nat>, x: nat)
    requires |s| <= 1 && x in s
    ensures s == {x}
  {
    assert |s - {x}| == 0;
  }

  lemma KeysGrow<K, V>(m: map<K, V>, k: K, v: V)
    ensures |m[k := v]| == if k in m then |m| else |m| + 1
  {
    assert m[k := v].Keys == m.Keys + {k};
  }

  lemma KeysShrink<K, V>(m: map<K, V>, k: K)
    requires k in m
    ensures |m - {k}| == |m| - 1
  {
    assert (m - {k}).Keys == m.Keys - {k};
  }

  lemma AdmitKeeps(t: Limits, held: map<nat, string>, c: nat, ip: string)
    requires Exact(t, held) && c !in held && Admit(t, ip).1
    ensures Exact(Admit(t, ip).0, held[c := ip])
  {
    KeysGrow(held, c, ip);
    if t.maxIP > 0 {
      var count := if ip in t.ipTable then t.ipTable[ip] + 1 else 1;
      TableAdmits(t.ipTable, held, c, ip);
      KeysGrow(t.ipTable, ip, count);
      assert Admit(t, ip).0.ipTable == t.ipTable[ip := count];
    }
  }

  lemma ReleaseKeeps(t: Limits, held: map<nat, string>, c: nat)
    requires Exact(t, held) && c in held
    ensures Exact(Release(t, held[c]).0, held - {c})
  {
    KeysShrink(held, c);
    if t.maxIP > 0 {
      var ip := held[c];
      TableReleases(t.ipTable, held, c);
      KeysShrink(t.ipTable, ip);
      KeysGrow(t.ipTable, ip, t.ipTable[ip] - 1);
    }
  }

  /** A new limit leaves the account exact if and only if it keeps the sign or nothing is held. */
  lemma NewLimitExactly(t: Limits, held: map<nat, string>, n: int)
    requires Exact(t, held)
    ensures Exact(t.(maxIP := n), held) <==> (t.maxIP > 0 <==> n > 0) || held == map[]
  {
    if held == map[] {
      assert forall ip :: From(held, ip) == {};
      assert t.ipTable == map[];
    } else {
      var c :| c in held;
      assert t.maxIP > 0 ==> held[c] in t.ipTable;
    }
  }

  // ---------- the server: every step keeps every account exact ----------

  /** Changing an IP limit is harmless when its sign stays or the user has no connection. */
  predicate Calm(s: Server, a: Action) {
    a.SetIPLimit? && a.user in s.users ==>
      (s.users[a.user].maxIP > 0 <==> a.limit > 0) || Held(s, a.user) == map[]
  }

  lemma GaugeUp(s: Server, c: nat)
    requires s.gauge == |Gauged(s)|
    ensures Do(s, AuthCount(c)).gauge == |Gauged(Do(s, AuthCount(c)))|
  {
    if c in s.conns && s.conns[c].phase == Admitted {
      assert Gauged(Do(s, AuthCount(c))) == Gauged(s) + {c} && c !in Gauged(s);
    }
  }

  lemma GaugeDown(s: Server, c: nat)
    requires s.gauge == |Gauged(s)|
    ensures Do(s, CloseDiscount(c)).gauge == |Gauged(Do(s, CloseDiscount(c)))|
  {
    if c in s.conns && s.conns[c].phase == Released {
      assert Gauged(Do(s, CloseDiscount(c))) == Gauged(s) - {c} && c in Gauged(s);
    }
  }

  lemma GaugeStays(s: Server, a: Action)
    requires !a.AuthCount? && !a.CloseDiscount?
    ensures Gauged(Do(s, a)) == Gauged(s) && Do(s, a).gauge == s.gauge
  {
  }

  lemma GaugeKept(s: Server, a: Action)
    requires s.gauge == |Gauged(s)|
    ensures Do(s, a).gauge == |Gauged(Do(s, a))|
  {
    match a
    case AuthCount(c) => GaugeUp(s, c);
    case CloseDiscount(c) => GaugeDown(s, c);
    case _ => GaugeStays(s, a);
  }

  /** How a step changes what a user holds. */
  lemma HeldAfter(s: Server, a: Action, u: nat)
    ensures var t := Do(s, a);
      match a
      case AuthAdmit(c, v, ip) =>
        Held(t, u) == if c !in s.conns && v in s.users && v == u && Admit(s.users[v], ip).1
                      then Held(s, u)[c := ip] else Held(s, u)
      case CloseRelease(c) =>
        Held(t, u) == if c in s.conns && s.conns[c].phase == Open && s.conns[c].user in s.users
                         && s.conns[c].user == u
                      then Held(s, u) - {c} else Held(s, u)
      case AddUser(_, _) => Held(t, u) == Held(s, u)
      case SetIPLimit(_, _) => Held(t, u) == Held(s, u)
      case AuthCount(_) => Held(t, u) == Held(s, u)
      case CloseDiscount(_) => Held(t, u) == Held(s, u)
  {
  }

  /** The account of user `u`, if there is one, is exact. */
  ghost predicate ExactFor(s: Server, u: nat) {
    u in s.users ==> Exact(s.users[u], Held(s, u))
  }

  /** A user whom the step does not concern. */
  lemma ExactUntouched(s: Server, t: Server, u: nat)
    requires Inv(s) && u in s.users && u in t.users && t.users[u] == s.users[u]
    requires Held(t, u) == Held(s, u)
    ensures ExactFor(t, u)
  {
  }

  /** What a handshake does to an account: nothing unless it is admitted. */
  lemma UserAfterAdmit(s: Server, c: nat, v: nat, ip: string, u: nat)
    requires u in s.users
    ensures var t := Do(s, AuthAdmit(c, v, ip));
      u in t.users && t.users[u] == if v == u && c !in s.conns then Admit(s.users[u], ip).0 else s.users[u]
  {
  }

  lemma ExactAfterAdmit(s: Server, c: nat, v: nat, ip: string, u: nat)
    requires Inv(s) && u in s.users
    ensures ExactFor(Do(s, AuthAdmit(c, v, ip)), u)
  {
    var t := Do(s, AuthAdmit(c, v, ip));
    HeldAfter(s, AuthAdmit(c, v, ip), u);
    UserAfterAdmit(s, c, v, ip, u);
    if v == u && c !in s.conns && Admit(s.users[v], ip).1 {
      assert Exact(s.users[u], Held(s, u));
      AdmitKeeps(s.users[u], Held(s, u), c, ip);
    } else {
      RefusedKeeps(s.users[u], ip);
      ExactUntouched(s, t, u);
    }
  }

  lemma RefusedKeeps(t: Limits, ip: string)
    ensures !Admit(t, ip).1 ==> Admit(t, ip).0 == t
  {
  }

  lemma ExactAfterRelease(s: Server, c: nat, u: nat)
    requires Inv(s) && u in s.users
    ensures ExactFor(Do(s, CloseRelease(c)), u)
  {
    var t := Do(s, CloseRelease(c));
    HeldAfter(s, CloseRelease(c), u);
    assert Exact(s.users[u], Held(s, u));
    if c in s.conns && s.conns[c].phase == Open && s.conns[c].user == u {
      ReleaseKeeps(s.users[u], Held(s, u), c);
    } else {
      ExactUntouched(s, t, u);
    }
  }

  lemma ExactAfterAdd(s: Server, v: nat, cap: int, u: nat)
    requires Inv(s)
    ensures ExactFor(Do(s, AddUser(v, cap)), u)
  {
    HeldAfter(s, AddUser(v, cap), u);
    if u in s.users {
      ExactUntouched(s, Do(s, AddUser(v, cap)), u);
    } else {
      assert Held(s, u) == map[];
    }
  }

  lemma ExactAfterLimit(s: Server, v: nat, n: int, u: nat)
    requires Inv(s) && Calm(s, SetIPLimit(v, n)) && u in s.users
    ensures ExactFor(Do(s, SetIPLimit(v, n)), u)
  {
    HeldAfter(s, SetIPLimit(v, n), u);
    assert Exact(s.users[u], Held(s, u));
    if v == u {
      NewLimitExactly(s.users[u], Held(s, u), n);
    }
  }

  lemma ExactAfterGauge(s: Server, a: Action, u: nat)
    requires Inv(s) && u in s.users && (a.AuthCount? || a.CloseDiscount?)
    ensures ExactFor(Do(s, a), u)
  {
    HeldAfter(s, a, u);
    ExactUntouched(s, Do(s, a), u);
  }

  lemma ExactKept(s: Server, a: Action, u: nat)
    requires Inv(s) && Calm(s, a) && (u in s.users || a.AddUser?)
    ensures ExactFor(Do(s, a), u)
  {
    match a
    case AddUser(v, cap) => ExactAfterAdd(s, v, cap, u);
    case SetIPLimit(v, n) => ExactAfterLimit(s, v, n, u);
    case AuthAdmit(c, v, ip) => ExactAfterAdmit(s, c, v, ip, u);
    case CloseRelease(c) => ExactAfterRelease(s, c, u);
    case _ => ExactAfterGauge(s, a, u);
  }

  lemma UsersKept(s: Server, a: Action)
    requires forall c | c in s.conns :: s.conns[c].user in s.users
    ensures forall c | c in Do(s, a).conns :: Do(s, a).conns[c].user in Do(s, a).users
  {
  }

  lemma NoNewUsers(s: Server, a: Action)
    ensures a.AddUser? || Do(s, a).users.Keys == s.users.Keys
  {
  }

  lemma AllExactKept(s: Server, a: Action)
    requires Inv(s) && Calm(s, a)
    ensures forall u | u in Do(s, a).users :: Exact(Do(s, a).users[u], Held(Do(s, a), u))
  {
    var t := Do(s, a);
    NoNewUsers(s, a);
    forall u | u in t.users
      ensures Exact(t.users[u], Held(t, u))
    {
      ExactKept(s, a, u);
      assert ExactFor(t, u);
    }
  }

  lemma InvKept(s: Server, a: Action)
    requires Inv(s) && Calm(s, a)
    ensures Inv(Do(s, a))
  {
    GaugeKept(s, a);
    UsersKept(s, a);
    AllExactKept(s, a);
  }

  /** Every limit change along the run is calm in the state where it happens. */
  ghost predicate CalmRun(s: Server, actions: seq<Action>)
    decreases |actions|
  {
    actions != [] ==> Calm(s, actions[0]) && CalmRun(Do(s, actions[0]), actions[1..])
  }

  lemma {:induction false} InvOverRuns(s: Server, actions: seq<Action>)
    requires Inv(s) && CalmRun(s, actions)
    ensures Inv(Run(s, actions))
    decreases |actions|
  {
    if actions != [] {
      InvKept(s, actions[0]);
      InvOverRuns(Do(s, actions[0]), actions[1..]);
    }
  }

  /**
    For every interleaving of handshakes, closes and limit changes in which no user's IP
    limit changes sign under open connections: connNum is the number of connections that
    user holds and respects a positive cap, under a positive IP limit the table counts the
    connections of each address and sums to connNum, and the gauge counts the connections
    between their two gauge updates.
  */
  lemma AccountsExact(actions: seq<Action>)
    requires CalmRun(START, actions)
    ensures var s := Run(START, actions);
      && s.gauge == |Gauged(s)|
      && (Settled(s) ==> s.gauge == |AllLive(s)|)
      && forall u | u in s.users ::
           && s.users[u].connNum == |Held(s, u)|
           && (s.users[u].maxConn > 0 ==> s.users[u].connNum <= s.users[u].maxConn)
           && s.users[u].ipNum == |s.users[u].ipTable|
           && (s.users[u].maxIP > 0 ==>
                 && TableExact(s.users[u].ipTable, Held(s, u))
                 && Sum(s.users[u].ipTable) == s.users[u].connNum)
  {
    assert Inv(START);
    InvOverRuns(START, actions);
    var s := Run(START, actions);
    if Settled(s) {
      assert Gauged(s) == AllLive(s);
    }
    forall u | u in s.users && s.users[u].maxIP > 0
      ensures Sum(s.users[u].ipTable) == s.users[u].connNum
    {
      assert Exact(s.users[u], Held(s, u));
      TableSums(s.users[u].ipTable, Held(s, u));
    }
  }

  // ---------- exactly who is admitted ----------

  /** There is a place for one more connection from `ip` beside those held. */
  predicate HasPlace(t: Limits, held: map<nat, string>, ip: string) {
    && (t.maxConn <= 0 || |held| < t.maxConn)
    && (t.maxIP <= 0 || ip in held.Values || |held.Values| < t.maxIP)
  }

  /** On an exact account a handshake is admitted if and only if there is a place for it. */
  lemma AdmitsExactly(t: Limits, held: map<nat, string>, ip: string)
    requires Exact(t, held)
    ensures Admit(t, ip).1 <==> HasPlace(t, held, ip)
    ensures !Admit(t, ip).1 ==> Admit(t, ip).0 == t
  {
    if t.maxIP > 0 {
      AddressesInUse(t.ipTable, held);
    }
  }

  lemma AddressesInUse(table: map<string, int>, held: map<nat, string>)
    requires TableExact(table, held)
    ensures table.Keys == held.Values && |table| == |held.Values|
  {
    forall ip | ip in table
      ensures ip in held.Values
    {
      var c :| c in From(held, ip);
    }
  }

  lemma AdmittedHolds(s: Server, c: nat, u: nat, ip: string)
    requires u in s.users && c !in s.conns && Admit(s.users[u], ip).1
    ensures Held(Do(s, AuthAdmit(c, u, ip)), u) == Held(s, u)[c := ip]
  {
    HeldAfter(s, AuthAdmit(c, u, ip), u);
  }

  lemma RefusedChangesNothing(s: Server, c: nat, u: nat, ip: string)
    requires u in s.users && c !in s.conns && !Admit(s.users[u], ip).1
    ensures Do(s, AuthAdmit(c, u, ip)) == s && c !in Held(s, u)
  {
    RefusedKeeps(s.users[u], ip);
    assert s.users[u := s.users[u]] == s.users;
  }

  lemma OthersHeld(s: Server, c: nat, u: nat, ip: string, v: nat)
    requires v != u
    ensures Held(Do(s, AuthAdmit(c, u, ip)), v) == Held(s, v)
  {
    HeldAfter(s, AuthAdmit(c, u, ip), v);
  }

  /**
    Over every calm run: a new connection of a user is admitted if and only if the user's own
    connections and addresses leave a place for it, and holds one from then on; a connection
    that is refused changes nothing, and nobody else's connections are touched.
  */
  lemma AdmissionExactly(actions: seq<Action>, c: nat, u: nat, ip: string, v: nat)
    requires CalmRun(START, actions)
    requires var s := Run(START, actions); c !in s.conns && u in s.users && v != u
    ensures var s := Run(START, actions);
      var t := Do(s, AuthAdmit(c, u, ip));
      && (HasPlace(s.users[u], Held(s, u), ip) ==> Held(t, u) == Held(s, u)[c := ip])
      && (!HasPlace(s.users[u], Held(s, u), ip) ==> t == s && c !in Held(t, u))
      && Held(t, v) == Held(s, v)
  {
    InvOverRuns(START, actions);
    var s := Run(START, actions);
    assert Exact(s.users[u], Held(s, u));
    AdmitsExactly(s.users[u], Held(s, u), ip);
    if HasPlace(s.users[u], Held(s, u), ip) {
      AdmittedHolds(s, c, u, ip);
    } else {
      RefusedChangesNothing(s, c, u, ip);
    }
    OthersHeld(s, c, u, ip, v);
  }

  // ---------- the counts of the table add up ----------

  ghost function Sum(t: map<string, int>): int
    decreases |t|
  {
    if t == map[] then 0 else
    var ip :| ip in t;
    assert (t - {ip}).Keys == t.Keys - {ip};
    t[ip] + Sum(t - {ip})
  }

  lemma {:induction false} TableSums(table: map<string, int>, held: map<nat, string>)
    requires TableExact(table, held)
    ensures Sum(table) == |held|
    decreases |table|
  {
    if table == map[] {
      assert held == map[];
    } else {
      var ip :| ip in table && Sum(table) == table[ip] + Sum(table - {ip});
      var gone := From(held, ip);
      var rest := held - gone;
      forall other | other in table - {ip}
        ensures From(rest, other) == From(held, other)
      {
      }
      assert (table - {ip}).Keys == table.Keys - {ip};
      TableSums(table - {ip}, rest);
      assert held.Keys == rest.Keys + gone;
    }
  }

  /** No handshake takes the number of distinct addresses above the limit. */
  lemma AdmissionRespectsLimit(u: Limits, ip: string)
    requires u.ipNum == |u.ipTable|
    ensures var (v, ok) := Admit(u, ip);
      && v.ipNum == |v.ipTable|
      && (v.ipNum > u.ipNum ==> ok && v.ipNum <= u.maxIP)
      && (ok <==> v.connNum == u.connNum + 1)
      && (!ok <==> v == u)
      && (ok && u.maxConn > 0 ==> v.connNum <= u.maxConn)
  {
    var (v, ok) := Admit(u, ip);
    assert v.ipTable.Keys == u.ipTable.Keys || v.ipTable.Keys == u.ipTable.Keys + {ip};
  }

  // ---------- a sign change under open connections breaks the accounts ----------

  /** How many connections the account counts beyond those the user holds. */
  function Excess(s: Server, u: nat): int
    requires u in s.users
  {
    s.users[u].connNum - |Held(s, u)|
  }

  /** Under a positive limit an admission counts one more, a release at most one less. */
  lemma ExcessAfterAdmit(s: Server, c: nat, v: nat, ip: string, u: nat)
    requires u in s.users && s.users[u].maxIP > 0
    ensures var t := Do(s, AuthAdmit(c, v, ip));
      u in t.users && t.users[u].maxIP > 0 && Excess(t, u) == Excess(s, u)
  {
    HeldAfter(s, AuthAdmit(c, v, ip), u);
    if c !in s.conns {
      KeysGrow(Held(s, u), c, ip);
    }
  }

  lemma ExcessAfterRelease(s: Server, c: nat, u: nat)
    requires u in s.users && s.users[u].maxIP > 0
    ensures var t := Do(s, CloseRelease(c));
      u in t.users && t.users[u].maxIP > 0 && Excess(t, u) >= Excess(s, u)
  {
    HeldAfter(s, CloseRelease(c), u);
    if c in Held(s, u) {
      KeysShrink(Held(s, u), c);
    }
  }

  ghost predicate StaysLimited(actions: seq<Action>, u: nat) {
    forall a | a in actions && a.SetIPLimit? && a.user == u :: a.limit > 0
  }

  lemma ExcessKept(s: Server, a: Action, u: nat)
    requires u in s.users && s.users[u].maxIP > 0 && !(a.SetIPLimit? && a.user == u && a.limit <= 0)
    ensures var t := Do(s, a); u in t.users && t.users[u].maxIP > 0 && Excess(t, u) >= Excess(s, u)
  {
    HeldAfter(s, a, u);
    match a
    case AuthAdmit(c, v, ip) => ExcessAfterAdmit(s, c, v, ip, u);
    case CloseRelease(c) => ExcessAfterRelease(s, c, u);
    case _ =>
  }

  /** As long as the limit stays positive, an excess is never worked off. */
  lemma {:induction false} ExcessForEver(s: Server, actions: seq<Action>, u: nat)
    requires u in s.users && s.users[u].maxIP > 0 && StaysLimited(actions, u)
    ensures var t := Run(s, actions); u in t.users && t.users[u].maxIP > 0 && Excess(t, u) >= Excess(s, u)
    decreases |actions|
  {
    if actions != [] {
      assert actions[0] in actions;
      ExcessKept(s, actions[0], u);
      ExcessForEver(Do(s, actions[0]), actions[1..], u);
    }
  }

  /** Closing a connection that the user holds, whether or not its handshake was complete. */
  function CloseIt(s: Server, c: nat): Server {
    Do(Do(s, AuthCount(c)), CloseRelease(c))
  }

  lemma CloseItIs(s: Server, u: nat, c: nat)
    requires u in s.users && c in Held(s, u)
    ensures var t := CloseIt(s, c);
      && t.users == s.users[u := Release(s.users[u], s.conns[c].ip).0]
      && Held(t, u) == Held(s, u) - {c}
  {
    HeldAfter(s, AuthCount(c), u);
    HeldAfter(Do(s, AuthCount(c)), CloseRelease(c), u);
  }

  /**
    A limit raised from none while a connection is held: once that connection closes, the
    account counts one too many, in every state and over every further run under a limit.
  */
  lemma RaisedLimitLeaks(s: Server, u: nat, n: int, c: nat, actions: seq<Action>)
    requires Inv(s) && u in s.users && s.users[u].maxIP <= 0 && n > 0 && c in Held(s, u) && StaysLimited(actions, u)
    ensures var t := Run(CloseIt(Do(s, SetIPLimit(u, n)), c), actions);
      u in t.users && t.users[u].connNum > |Held(t, u)|
  {
    var s1 := Do(s, SetIPLimit(u, n));
    HeldAfter(s, SetIPLimit(u, n), u);
    assert Exact(s.users[u], Held(s, u));
    CloseItIs(s1, u, c);
    KeysShrink(Held(s1, u), c);
    ExcessForEver(CloseIt(s1, c), actions, u);
  }

  lemma OneFewerFrom(held: map<nat, string>, c: nat)
    requires c in held
    ensures |From(held, held[c])| == |From(held - {c}, held[c])| + 1
  {
    FromRemoved(held, c);
    assert c in From(held, held[c]);
  }

  /** Without a limit a close leaves the table alone. */
  lemma LiftedClose(s: Server, u: nat, c: nat)
    requires u in s.users && s.users[u].maxIP <= 0 && c in Held(s, u)
    ensures var t := CloseIt(s, c);
      && u in t.users && t.users[u].ipTable == s.users[u].ipTable && t.users[u].maxIP == s.users[u].maxIP
      && Held(t, u) == Held(s, u) - {c}
  {
    CloseItIs(s, u, c);
  }

  /**
    A limit lifted while a connection is held and set again after it closed: its address
    stays counted once too often, so that it takes up a place no connection uses.
  */
  lemma LoweredLimitLeaks(s: Server, u: nat, n: int, m: int, c: nat)
    requires Inv(s) && u in s.users && s.users[u].maxIP > 0 && n <= 0 && m > 0 && c in Held(s, u)
    ensures var t := Do(CloseIt(Do(s, SetIPLimit(u, n)), c), SetIPLimit(u, m));
      var ip := Held(s, u)[c];
      u in t.users && ip in t.users[u].ipTable && t.users[u].ipTable[ip] == |From(Held(t, u), ip)| + 1
  {
    var s1 := Do(s, SetIPLimit(u, n));
    HeldAfter(s, SetIPLimit(u, n), u);
    assert Exact(s.users[u], Held(s, u));
    LiftedClose(s1, u, c);
    HeldAfter(CloseIt(s1, c), SetIPLimit(u, m), u);
    OneFewerFrom(Held(s, u), c);
  }

  // ---------- exactly the calm limit changes are harmless ----------

  /** The account of a user is visibly wrong: its connections, or its addresses under a limit. */
  ghost predicate Wrong(s: Server, u: nat) {
    && u in s.users
    && (s.users[u].connNum != |Held(s, u)| || (s.users[u].maxIP > 0 && !TableExact(s.users[u].ipTable, Held(s, u))))
  }

  /** A continuation, itself without a sign change under open connections, that makes it so. */
  ghost predicate Harms(s: Server, u: nat, actions: seq<Action>) {
    CalmRun(s, actions) && Wrong(Run(s, actions), u)
  }

  lemma InvNotWrong(s: Server, u: nat)
    requires Inv(s)
    ensures !Wrong(s, u)
  {
    if u in s.users {
      assert Exact(s.users[u], Held(s, u));
    }
  }

  lemma CloseRun(s: Server, c: nat, rest: seq<Action>)
    ensures var actions := [AuthCount(c), CloseRelease(c)] + rest;
      && Run(s, actions) == Run(CloseIt(s, c), rest)
      && (CalmRun(CloseIt(s, c), rest) ==> CalmRun(s, actions))
  {
    var actions := [AuthCount(c), CloseRelease(c)] + rest;
    var mid := Do(s, AuthCount(c));
    assert actions[1..] == [CloseRelease(c)] + rest && actions[1..][1..] == rest;
    assert Run(mid, actions[1..]) == Run(CloseIt(s, c), rest);
    assert CalmRun(CloseIt(s, c), rest) ==> CalmRun(mid, actions[1..]);
  }

  /** Without a limit, a user's connections can all be closed, and its table is still what it was. */
  lemma {:induction false} CloseAll(s: Server, u: nat) returns (actions: seq<Action>)
    requires u in s.users && s.users[u].maxIP <= 0
    ensures CalmRun(s, actions)
    ensures var t := Run(s, actions);
      u in t.users && Held(t, u) == map[] && t.users[u].ipTable == s.users[u].ipTable && t.users[u].maxIP <= 0
    decreases |Held(s, u)|
  {
    if Held(s, u) == map[] {
      return [];
    }
    var c :| c in Held(s, u);
    LiftedClose(s, u, c);
    KeysShrink(Held(s, u), c);
    var rest := CloseAll(CloseIt(s, c), u);
    actions := [AuthCount(c), CloseRelease(c)] + rest;
    CloseRun(s, c, rest);
  }

  lemma {:induction false} RunSnoc(s: Server, first: seq<Action>, a: Action)
    requires CalmRun(s, first) && Calm(Run(s, first), a)
    ensures Run(s, first + [a]) == Do(Run(s, first), a) && CalmRun(s, first + [a])
    decreases |first|
  {
    if first == [] {
      assert first + [a] == [a] && [a][1..] == [];
    } else {
      assert (first + [a])[1..] == first[1..] + [a];
      RunSnoc(Do(s, first[0]), first[1..], a);
    }
  }

  /** A stale table is wrong as soon as a limit is set again. */
  lemma StaleIsWrong(s: Server, u: nat) returns (actions: seq<Action>)
    requires u in s.users && s.users[u].maxIP <= 0 && s.users[u].ipTable != map[]
    ensures Harms(s, u, actions)
  {
    var closes := CloseAll(s, u);
    var t := Run(s, closes);
    var again := SetIPLimit(u, 1);
    HeldAfter(t, again, u);
    RunSnoc(s, closes, again);
    var ip :| ip in t.users[u].ipTable;
    assert From(Held(t, u), ip) == {};
    actions := closes + [again];
  }

  /** A limit raised from none over a held connection is wrong as soon as that connection closes. */
  lemma RaisedIsWrong(s: Server, u: nat, n: int) returns (actions: seq<Action>)
    requires Inv(s) && u in s.users && s.users[u].maxIP <= 0 && n > 0 && Held(s, u) != map[]
    ensures Harms(Do(s, SetIPLimit(u, n)), u, actions)
  {
    var c :| c in Held(s, u);
    RaisedLimitLeaks(s, u, n, c, []);
    CloseRun(Do(s, SetIPLimit(u, n)), c, []);
    actions := [AuthCount(c), CloseRelease(c)] + [];
  }

  /**
    From exact accounts, a limit change leaves them exact if and only if it is calm; and it is
    calm if and only if no continuation, itself calm, ever makes the user's account visibly wrong.
  */
  lemma LimitChangeExactly(s: Server, u: nat, n: int)
    requires Inv(s) && u in s.users
    ensures Inv(Do(s, SetIPLimit(u, n))) <==> Calm(s, SetIPLimit(u, n))
    ensures Calm(s, SetIPLimit(u, n)) <==> !exists actions :: Harms(Do(s, SetIPLimit(u, n)), u, actions)
  {
    var t := Do(s, SetIPLimit(u, n));
    HeldAfter(s, SetIPLimit(u, n), u);
    assert Exact(s.users[u], Held(s, u));
    NewLimitExactly(s.users[u], Held(s, u), n);
    if Calm(s, SetIPLimit(u, n)) {
      InvKept(s, SetIPLimit(u, n));
      forall actions
        ensures !Harms(t, u, actions)
      {
        NoHarm(t, u, actions);
      }
    } else {
      assert !Exact(t.users[u], Held(t, u));
      var actions;
      if n > 0 {
        actions := RaisedIsWrong(s, u, n);
      } else {
        var c :| c in Held(s, u);
        assert Held(s, u)[c] in s.users[u].ipTable;
        actions := StaleIsWrong(t, u);
      }
      assert Harms(t, u, actions);
    }
  }

  lemma NoHarm(s: Server, u: nat, actions: seq<Action>)
    requires Inv(s)
    ensures !Harms(s, u, actions)
  {
    if CalmRun(s, actions) {
      InvOverRuns(s, actions);
      InvNotWrong(Run(s, actions), u);
    }
  }
}
