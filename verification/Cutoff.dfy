/**
  Active quota cutoff of a user (statistic/memory/memory.go).

  A call of AddSentTraffic or AddRecvTraffic is three atomic steps that interleave
  freely with every other call: bump the own counter, load the other counter, compare
  the sum with the quota.  ResetTraffic swaps the two counters to zero one at a time,
  and Close fires the cutoff unconditionally.
*/
module Cutoff {
  import opened Numbers
  import opened Traffic

  /** uint64 arithmetic. */
  function Wrap(n: int): (r: int)
    ensures 0 <= r < TWO64
    ensures 0 <= n < TWO64 ==> r == n
  {
    n % TWO64
  }

  /** A call in flight: its own counter was bumped to `total`, or both counters were summed. */
  datatype Call =
    | Added(dir: Direction, total: int)
    | Loaded(sum: int)

  /** `counted` remembers every byte ever accounted; the source keeps no such history. */
  datatype State = State(
    counter: Delta,
    quota: int,
    cutoff: bool,
    fires: nat,
    calls: map<nat, Call>,
    removed: bool,
    counted: Delta)

  function Fresh(quota: int): State {
    State(Delta(0, 0), quota, false, 0, map[], false, Delta(0, 0))
  }

  datatype Action =
    | Add(call: nat, dir: Direction, n: nat)
    | Load(call: nat)
    | Check(call: nat)
    | Swap(dir: Direction)
    | Close

  /** cutoffOnce.Do: the channel is closed and the metric bumped by the first caller only. */
  function FireCutoff(s: State): State {
    if s.cutoff then s else s.(cutoff := true, fires := s.fires + 1)
  }

  /** One atomic step; an action whose call is not at that step does nothing. */
  function Do(s: State, a: Action): State {
    match a
    case Add(c, d, n) =>
      if c in s.calls then s else
      var total := Wrap(s.counter.At(d) + n);
      s.(counter := s.counter.With(d, total),
         counted := s.counted.With(d, s.counted.At(d) + n),
         calls := s.calls[c := Added(d, total)])
    case Load(c) =>
      if c in s.calls && s.calls[c].Added? then
        var sum := Wrap(s.calls[c].total + s.counter.At(Other(s.calls[c].dir)));
        s.(calls := s.calls[c := Loaded(sum)])
      else s
    case Check(c) =>
      if c in s.calls && s.calls[c].Loaded? then
        var done := s.(calls := s.calls - {c});
        if s.quota > 0 && s.calls[c].sum >= s.quota then FireCutoff(done) else done
      else s
    case Swap(d) => s.(counter := s.counter.With(d, 0))
    case Close => FireCutoff(s.(removed := true))
  }

  function Run(s: State, actions: seq<Action>): State
    decreases |actions|
  {
    if actions == [] then s else Run(Do(s, actions[0]), actions[1..])
  }

  /** The bytes a schedule hands to the counters. */
  function Bytes(actions: seq<Action>): nat {
    if actions == [] then 0
    else (if actions[0].Add? then actions[0].n else 0) + Bytes(actions[1..])
  }

  // ---------- the invariant behind "no missed cutoff" ----------

  /** Call `c` reaches the quota on its own counter `d`, whatever happens to the other one. */
  ghost predicate SureAlone(s: State, d: Direction, c: nat) {
    c in s.calls &&
    match s.calls[c]
    case Added(dir, total) => dir == d && total >= s.quota
    case Loaded(sum) => sum >= s.quota
  }

  /** Call `c` reaches the quota as long as the other counter does not shrink. */
  ghost predicate SureTogether(s: State, c: nat) {
    c in s.calls &&
    match s.calls[c]
    case Added(dir, total) => total + s.counter.At(Other(dir)) >= s.quota
    case Loaded(sum) => sum >= s.quota
  }

  ghost predicate CallBounded(s: State, call: Call) {
    match call
    case Added(dir, total) => 0 <= total <= s.counted.At(dir)
    case Loaded(sum) => 0 <= sum <= s.counted.Total()
  }

  ghost predicate Bounded(s: State) {
    && s.counted.Total() < TWO64
    && 0 <= s.counter.sent <= s.counted.sent
    && 0 <= s.counter.recv <= s.counted.recv
    && forall c | c in s.calls :: CallBounded(s, s.calls[c])
  }

  ghost predicate Alone(s: State, d: Direction) {
    s.counter.At(d) >= s.quota && !s.cutoff ==> exists c :: SureAlone(s, d, c)
  }

  ghost predicate Together(s: State) {
    s.counter.Total() >= s.quota && !s.cutoff ==> exists c :: SureTogether(s, c)
  }

  ghost predicate Justified(s: State) {
    && s.fires == (if s.cutoff then 1 else 0)
    && (s.removed ==> s.cutoff)
    && (s.cutoff && !s.removed ==> s.counted.Total() >= s.quota > 0)
  }

  ghost predicate Inv(s: State) {
    Bounded(s) && Justified(s) && (s.quota > 0 ==> Alone(s, Sent) && Alone(s, Recv) && Together(s))
  }

  lemma AloneKept(s: State, a: Action, d: Direction)
    requires Inv(s) && s.quota > 0
    requires Bounded(Do(s, a))
    ensures Alone(Do(s, a), d)
  {
    var t := Do(s, a);
    if t.counter.At(d) >= t.quota && !t.cutoff {
      if a.Add? && a.call !in s.calls && a.dir == d {
        assert SureAlone(t, d, a.call);
      } else {
        assert Alone(s, d);
        var c :| SureAlone(s, d, c);
        assert SureAlone(t, d, c);
      }
    }
  }

  lemma TogetherKept(s: State, a: Action)
    requires Inv(s) && s.quota > 0
    requires Bounded(Do(s, a))
    ensures Together(Do(s, a))
  {
    var t := Do(s, a);
    if t.counter.Total() >= t.quota && !t.cutoff {
      match a
      case Add(c, d, n) =>
        if c !in s.calls {
          assert SureTogether(t, c);
        }
      case Swap(d) =>
        // what is left of the sum is the other counter alone
        assert Alone(s, Other(d));
        var c :| SureAlone(s, Other(d), c);
        assert c in t.calls;
        assert SureTogether(t, c);
      case Load(_) =>
        var c :| SureTogether(s, c);
        assert CallBounded(s, s.calls[c]);
        assert SureTogether(t, c);
      case Check(_) =>
        assert Together(s) && !s.cutoff;
        var c :| SureTogether(s, c);
        assert SureTogether(t, c);
      case Close =>
    }
  }

  lemma BoundedKept(s: State, a: Action)
    requires Bounded(s)
    requires s.counted.Total() + Bytes([a]) < TWO64
    ensures Bounded(Do(s, a))
    ensures Do(s, a).counted.Total() <= s.counted.Total() + Bytes([a])
  {
    assert Bytes([a]) == if a.Add? then a.n else 0;
    var t := Do(s, a);
    forall c | c in t.calls
      ensures CallBounded(t, t.calls[c])
    {
      assert c in s.calls ==> CallBounded(s, s.calls[c]);
    }
  }

  lemma InvKept(s: State, a: Action)
    requires Inv(s)
    requires s.counted.Total() + Bytes([a]) < TWO64
    ensures Inv(Do(s, a))
  {
    BoundedKept(s, a);
    if s.quota > 0 {
      AloneKept(s, a, Sent);
      AloneKept(s, a, Recv);
      TogetherKept(s, a);
    }
    if a.Check? && a.call in s.calls {
      assert CallBounded(s, s.calls[a.call]);
    }
  }

  lemma FreshBounded(quota: int)
    ensures Bounded(Fresh(quota))
  {
  }

  lemma FreshJustified(quota: int)
    ensures Justified(Fresh(quota))
  {
  }

  lemma FreshAlone(quota: int, d: Direction)
    requires quota > 0
    ensures Alone(Fresh(quota), d)
  {
  }

  lemma FreshTogether(quota: int)
    requires quota > 0
    ensures Together(Fresh(quota))
  {
  }

  lemma FreshInv(quota: int)
    ensures Inv(Fresh(quota))
  {
    FreshBounded(quota);
    FreshJustified(quota);
    if quota > 0 {
      FreshAlone(quota, Sent);
      FreshAlone(quota, Recv);
      FreshTogether(quota);
    }
  }

  lemma {:induction false} InvOverRuns(s: State, actions: seq<Action>)
    requires Inv(s)
    requires s.counted.Total() + Bytes(actions) < TWO64
    ensures Inv(Run(s, actions))
    ensures Run(s, actions).quota == s.quota
    decreases |actions|
  {
    if actions != [] {
      InvKept(s, actions[0]);
      BoundedKept(s, actions[0]);
      InvOverRuns(Do(s, actions[0]), actions[1..]);
    }
  }

  /**
    No missed cutoff.  For every schedule of traffic calls, resets and removals that
    accounts fewer than 2^64 bytes: once no call is in flight, counters that have
    reached a positive quota imply that the cutoff channel is closed.  It is closed at
    most once, for a removed user in any case, and traffic alone closes it only for a user
    that really used the quota up.
  */
  lemma NoMissedCutoff(quota: int, actions: seq<Action>)
    requires Bytes(actions) < TWO64
    ensures var s := Run(Fresh(quota), actions);
      && (quota > 0 && s.calls == map[] && s.counter.Total() >= quota ==> s.cutoff)
      && s.fires == (if s.cutoff then 1 else 0)
      && (s.removed ==> s.cutoff)
      && (s.cutoff && !s.removed ==> s.counted.Total() >= quota > 0)
  {
    FreshInv(quota);
    InvOverRuns(Fresh(quota), actions);
    var s := Run(Fresh(quota), actions);
    assert Inv(s) && s.quota == quota;
    if quota > 0 && s.counter.Total() >= quota && !s.cutoff {
      var c :| SureTogether(s, c);
      assert c in s.calls;
    }
  }

  /** A schedule in which the counters are never reset and the user is never removed. */
  ghost predicate TrafficOnly(actions: seq<Action>) {
    forall a | a in actions :: a.Add? || a.Load? || a.Check?
  }

  lemma {:induction false} NothingForgotten(s: State, actions: seq<Action>)
    requires Inv(s) && s.counter == s.counted && !s.removed
    requires s.counted.Total() + Bytes(actions) < TWO64
    requires TrafficOnly(actions)
    ensures var t := Run(s, actions); t.counter == t.counted && !t.removed
    decreases |actions|
  {
    if actions != [] {
      var a := actions[0];
      assert a in actions;
      InvKept(s, a);
      BoundedKept(s, a);
      NothingForgotten(Do(s, a), actions[1..]);
    }
  }

  /** With traffic alone, at rest the user is cut off exactly when the quota is used up. */
  lemma CutoffExact(quota: int, actions: seq<Action>)
    requires Bytes(actions) < TWO64 && TrafficOnly(actions)
    requires quota > 0
    ensures var s := Run(Fresh(quota), actions);
      s.calls == map[] ==> (s.cutoff <==> s.counted.Total() >= quota)
  {
    FreshInv(quota);
    NothingForgotten(Fresh(quota), actions);
    NoMissedCutoff(quota, actions);
  }

  /** The user object.  Each method is the schedule of its atomic steps. */
  class User {
    var Sent: int
    var Recv: int
    var quota: int
    var cutoffClosed: bool
    var cutoffMetric: nat
    ghost var calls: map<nat, Call>
    ghost var removed: bool
    ghost var counted: Delta

    ghost function Abs(): State
      reads this
    {
      State(Delta(Sent, Recv), quota, cutoffClosed, cutoffMetric, calls, removed, counted)
    }

    constructor (q: int)
      ensures Abs() == Fresh(q)
    {
      Sent, Recv, quota, cutoffClosed, cutoffMetric := 0, 0, q, false, 0;
      calls, removed, counted := map[], false, Delta(0, 0);
    }

    method FireCutoffOnce()
      modifies this
      ensures Abs() == FireCutoff(old(Abs()))
    {
      if !cutoffClosed {
        cutoffClosed := true;
        cutoffMetric := cutoffMetric + 1;
      }
    }

    method CheckQuota(total: int)
      modifies this
      ensures Abs() == if quota > 0 && total >= quota then FireCutoff(old(Abs())) else old(Abs())
    {
      var q := quota;
      if q <= 0 {
        return;
      }
      if total >= q {
        FireCutoffOnce();
      }
    }

    method AddSentTraffic(sent: nat, ghost call: nat)
      requires call !in calls
      modifies this
      ensures Abs() == Run(old(Abs()), [Add(call, Direction.Sent, sent), Load(call), Check(call)])
      ensures Sent == (old(Sent) + sent) % TWO64 && Recv == old(Recv) && quota == old(quota)
      ensures cutoffClosed <==> old(cutoffClosed) || (quota > 0 && (Sent + Recv) % TWO64 >= quota)
      ensures cutoffMetric == old(cutoffMetric) + if cutoffClosed && !old(cutoffClosed) then 1 else 0
    {
      ghost var s := Abs();
      var total := Wrap(Sent + sent);
      Sent := total;
      counted := counted.With(Direction.Sent, counted.sent + sent);
      var sum := Wrap(total + Recv);
      CheckQuota(sum);
      ThreeSteps(s, call, Direction.Sent, sent);
    }

    method AddRecvTraffic(recv: nat, ghost call: nat)
      requires call !in calls
      modifies this
      ensures Abs() == Run(old(Abs()), [Add(call, Direction.Recv, recv), Load(call), Check(call)])
      ensures Recv == (old(Recv) + recv) % TWO64 && Sent == old(Sent) && quota == old(quota)
      ensures cutoffClosed <==> old(cutoffClosed) || (quota > 0 && (Sent + Recv) % TWO64 >= quota)
      ensures cutoffMetric == old(cutoffMetric) + if cutoffClosed && !old(cutoffClosed) then 1 else 0
    {
      ghost var s := Abs();
      var total := Wrap(Recv + recv);
      Recv := total;
      counted := counted.With(Direction.Recv, counted.recv + recv);
      var sum := Wrap(total + Sent);
      CheckQuota(sum);
      ThreeSteps(s, call, Direction.Recv, recv);
    }

    /** Returns what the counters held; nothing else of the user changes. */
    method ResetTraffic() returns (sent: int, recv: int)
      modifies this`Sent, this`Recv
      ensures sent == old(Sent) && recv == old(Recv) && Sent == 0 && Recv == 0
      ensures Abs() == Run(old(Abs()), [Swap(Direction.Sent), Swap(Direction.Recv)])
    {
      ghost var s := Abs();
      sent, Sent := Sent, 0;
      recv, Recv := Recv, 0;
      assert Run(s, [Swap(Direction.Sent), Swap(Direction.Recv)])
          == Run(Do(s, Swap(Direction.Sent)), [Swap(Direction.Recv)]);
    }

    method Shut()
      modifies this
      ensures Abs() == Run(old(Abs()), [Swap(Direction.Sent), Swap(Direction.Recv), Close])
      ensures Sent == 0 && Recv == 0 && cutoffClosed && quota == old(quota)
      ensures cutoffMetric == old(cutoffMetric) + if old(cutoffClosed) then 0 else 1
    {
      ghost var s := Abs();
      var _, _ := ResetTraffic();
      removed := true;
      FireCutoffOnce();
      RunAppend(s, [Swap(Direction.Sent), Swap(Direction.Recv)], [Close]);
      assert [Swap(Direction.Sent), Swap(Direction.Recv)] + [Close]
          == [Swap(Direction.Sent), Swap(Direction.Recv), Close];
    }
  }

  lemma {:induction false} RunAppend(s: State, first: seq<Action>, second: seq<Action>)
    ensures Run(s, first + second) == Run(Run(s, first), second)
    decreases |first|
  {
    if first == [] {
      assert first + second == second;
    } else {
      assert (first + second)[1..] == first[1..] + second;
      RunAppend(Do(s, first[0]), first[1..], second);
    }
  }

  lemma LoadIs(t: State, call: nat, d: Direction, total: int)
    ensures Do(t.(calls := t.calls[call := Added(d, total)]), Load(call))
         == t.(calls := t.calls[call := Loaded(Wrap(total + t.counter.At(Other(d))))])
  {
    assert t.calls[call := Added(d, total)][call := Loaded(Wrap(total + t.counter.At(Other(d))))]
        == t.calls[call := Loaded(Wrap(total + t.counter.At(Other(d))))];
  }

  lemma CheckIs(t: State, call: nat, sum: int)
    requires call !in t.calls
    ensures Do(t.(calls := t.calls[call := Loaded(sum)]), Check(call))
         == if t.quota > 0 && sum >= t.quota then FireCutoff(t) else t
  {
    assert t.calls[call := Loaded(sum)] - {call} == t.calls;
  }

  /** A call that runs without interruption leaves no trace of itself in flight. */
  lemma ThreeSteps(s: State, call: nat, d: Direction, n: nat)
    requires call !in s.calls
    ensures var total := Wrap(s.counter.At(d) + n);
      var sum := Wrap(total + s.counter.At(Other(d)));
      var t := s.(counter := s.counter.With(d, total), counted := s.counted.With(d, s.counted.At(d) + n));
      Run(s, [Add(call, d, n), Load(call), Check(call)])
      == if s.quota > 0 && sum >= s.quota then FireCutoff(t) else t
  {
    RunThree(s, Add(call, d, n), Load(call), Check(call));
    var total := Wrap(s.counter.At(d) + n);
    var t := s.(counter := s.counter.With(d, total), counted := s.counted.With(d, s.counted.At(d) + n));
    AddIs(s, call, d, n);
    LoadIs(t, call, d, total);
    CheckIs(t, call, Wrap(total + t.counter.At(Other(d))));
  }

  lemma AddIs(s: State, call: nat, d: Direction, n: nat)
    requires call !in s.calls
    ensures var total := Wrap(s.counter.At(d) + n);
      var t := s.(counter := s.counter.With(d, total), counted := s.counted.With(d, s.counted.At(d) + n));
      Do(s, Add(call, d, n)) == t.(calls := t.calls[call := Added(d, total)])
      && t.counter.At(Other(d)) == s.counter.At(Other(d))
  {
  }

  lemma RunThree(s: State, a: Action, b: Action, c: Action)
    ensures Run(s, [a, b, c]) == Do(Do(Do(s, a), b), c)
  {
    var u := Do(s, a);
    var v := Do(u, b);
    var w := Do(v, c);
    assert [a, b, c][1..] == [b, c] && [b, c][1..] == [c] && [c][1..] == [];
    assert Run(w, []) == w;
    assert Run(v, [c]) == w;
    assert Run(u, [b, c]) == Run(v, [c]);
  }
}
