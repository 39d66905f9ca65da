/**
  Deadlines of a virtual UDP connection (tunnel/socks/deadline.go).

  `set` runs under a mutex in several steps; a timer callback runs without the mutex: it
  reads the `cancel` field and closes the channel it found there.  The steps of the set call
  that holds the mutex, of every callback and of the clock interleave freely.  Closing a
  channel twice panics.  `wait` takes the same mutex, so it runs between set calls only.
*/
module SocksDeadline {
  import opened Deadlines

  // Stop succeeds on an armed timer only; from Fired on the callback is under way.
  datatype Phase = Armed | Fired | Holding(chan: nat) | Done | Stopped

  datatype Timer = Timer(armedFor: nat, due: int, phase: Phase)

  datatype Link = NoTimer | Current(index: nat)

  // How far the set call that holds the mutex has got.
  datatype Caller =
    | Idle
    | Locked(target: Target)
    | Waiting(target: Target)
    | Cleared(target: Target)
    | Looked(target: Target, found: bool)

  /**
    Channels are numbered in the order they are made and `cancel` is the newest of them;
    `inForce` is the argument of the last set call that returned, `handed` what `wait` returned,
    `reasons` the deadline for which a channel was closed.
  */
  datatype State = State(
    now: int,
    timers: seq<Timer>,
    timer: Link,
    cancel: nat,
    closed: set<nat>,
    caller: Caller,
    inForce: Target,
    handed: set<nat>,
    reasons: map<nat, int>,
    panicked: bool)

  function Fresh(now: int): State {
    State(now, [], NoTimer, 0, {}, Idle, Never, {}, map[], false)
  }

  datatype Action =
    | Tick(n: nat)
    | Fire(i: nat)
    | ReadCancel(i: nat)
    | CloseRead(i: nat)
    | Lock(target: Target)
    | StopTimer
    | Wake
    | Look
    | Act
    | Wait

  function CloseChannel(s: State, c: nat, why: int): State {
    if c in s.closed then s.(panicked := true)
    else s.(closed := s.closed + {c}, reasons := s.reasons[c := why])
  }

  function Enter(s: State, i: nat, phase: Phase): State
    requires i < |s.timers|
  {
    s.(timers := s.timers[i := s.timers[i].(phase := phase)])
  }

  function DoFire(s: State, i: nat): State {
    if i < |s.timers| && s.timers[i].phase.Armed? && s.timers[i].due <= s.now then Enter(s, i, Fired) else s
  }

  function DoReadCancel(s: State, i: nat): State {
    if i < |s.timers| && s.timers[i].phase.Fired? then Enter(s, i, Holding(s.cancel)) else s
  }

  function DoCloseRead(s: State, i: nat): State {
    if i < |s.timers| && s.timers[i].phase.Holding? then
      Enter(CloseChannel(s, s.timers[i].phase.chan, s.timers[i].due), i, Done)
    else s
  }

  /** A timer that can no longer be stopped has to be waited for. */
  function DoStopTimer(s: State): State {
    if !s.caller.Locked? then s
    else if !(s.timer.Current? && s.timer.index < |s.timers|) then s.(caller := Cleared(s.caller.target))
    else if s.timers[s.timer.index].phase.Armed? then
      Enter(s, s.timer.index, Stopped).(timer := NoTimer, caller := Cleared(s.caller.target))
    else s.(caller := Waiting(s.caller.target))
  }

  function DoWake(s: State): State {
    if s.caller.Waiting? && s.cancel in s.closed then s.(timer := NoTimer, caller := Cleared(s.caller.target)) else s
  }

  function DoLook(s: State): State {
    if s.caller.Cleared? then s.(caller := Looked(s.caller.target, s.cancel in s.closed)) else s
  }

  function Renew(s: State, found: bool): State {
    if found then s.(cancel := s.cancel + 1) else s
  }

  function Arm(s: State, due: int): State {
    s.(timers := s.timers + [Timer(s.cancel, due, Armed)], timer := Current(|s.timers|))
  }

  function DoAct(s: State): State {
    if !s.caller.Looked? then s
    else
      var target, found := s.caller.target, s.caller.found;
      var t := s.(caller := Idle, inForce := target);
      match target
      case Never => Renew(t, found)
      case At(time) =>
        if time > s.now then Arm(Renew(t, found), time)
        else if !found then CloseChannel(t, t.cancel, time)
        else t
  }

  function Do(s: State, a: Action): State {
    match a
    case Tick(n) => s.(now := s.now + n)
    case Fire(i) => DoFire(s, i)
    case ReadCancel(i) => DoReadCancel(s, i)
    case CloseRead(i) => DoCloseRead(s, i)
    case Lock(target) => if s.caller.Idle? then s.(caller := Locked(target)) else s
    case StopTimer => DoStopTimer(s)
    case Wake => DoWake(s)
    case Look => DoLook(s)
    case Act => DoAct(s)
    case Wait => if s.caller.Idle? then s.(handed := s.handed + {s.cancel}) else s
  }

  function Run(s: State, actions: seq<Action>): State
    decreases |actions|
  {
    if actions == [] then s else Run(Do(s, actions[0]), actions[1..])
  }

  // ---------- what every step keeps ----------

  ghost predicate Active(t: Timer) {
    t.phase.Armed? || t.phase.Fired? || t.phase.Holding?
  }

  /** An active timer is the current one, and the channel it was armed for is current and open. */
  ghost predicate TimerOk(s: State, i: nat, t: Timer) {
    && (Active(t) ==> s.timer == Current(i) && t.armedFor == s.cancel && s.cancel !in s.closed)
    && (t.phase.Holding? ==> t.phase.chan == s.cancel)
    && (!t.phase.Armed? && !t.phase.Stopped? ==> t.due <= s.now)
  }

  ghost predicate Timers(s: State) {
    forall i: nat | i < |s.timers| :: TimerOk(s, i, s.timers[i])
  }

  /** Channels replaced by a newer one were closed before; none is closed before it is made. */
  ghost predicate Channels(s: State) {
    && (forall c: nat :: c < s.cancel ==> c in s.closed)
    && (forall c | c in s.closed :: c <= s.cancel)
    && (forall c | c in s.handed :: c <= s.cancel)
    && (forall c | c in s.closed :: c in s.reasons && s.reasons[c] <= s.now)
    && !s.panicked
  }

  /** What the timer field and the current channel say about the deadline in force. */
  ghost predicate Deadline(s: State) {
    match s.timer
    case Current(i) =>
      && i < |s.timers| && !s.timers[i].phase.Stopped?
      && s.inForce == At(s.timers[i].due)
      && (s.cancel in s.closed <==> s.timers[i].phase.Done?)
    case NoTimer =>
      && (s.cancel in s.closed <==> s.inForce.At?)
      && (s.inForce.At? ==> s.inForce.time <= s.now)
  }

  ghost predicate Progress(s: State) {
    match s.caller
    case Waiting(_) => s.timer.Current? && Deadline(s) && !s.timers[s.timer.index].phase.Armed?
    case Cleared(_) => s.timer.NoTimer?
    case Looked(_, found) => s.timer.NoTimer? && found == (s.cancel in s.closed)
    case _ => Deadline(s)
  }

  ghost predicate Inv(s: State) {
    Timers(s) && Channels(s) && Progress(s)
  }

  lemma CallbackKept(s: State, i: nat)
    requires Inv(s)
    ensures Inv(DoFire(s, i)) && Inv(DoReadCancel(s, i)) && Inv(DoCloseRead(s, i))
  {
    assert i < |s.timers| ==> TimerOk(s, i, s.timers[i]);
  }

  lemma SetKept(s: State)
    requires Inv(s)
    ensures Inv(DoStopTimer(s)) && Inv(DoWake(s)) && Inv(DoLook(s))
  {
  }

  lemma ActKept(s: State)
    requires Inv(s)
    ensures Inv(DoAct(s))
  {
  }

  lemma InvKept(s: State, a: Action)
    requires Inv(s)
    ensures Inv(Do(s, a))
  {
    match a
    case Fire(i) => CallbackKept(s, i);
    case ReadCancel(i) => CallbackKept(s, i);
    case CloseRead(i) => CallbackKept(s, i);
    case Act => ActKept(s);
    case _ => SetKept(s);
  }

  lemma {:induction false} InvOverRuns(s: State, actions: seq<Action>)
    requires Inv(s)
    ensures Inv(Run(s, actions))
    decreases |actions|
  {
    if actions != [] {
      InvKept(s, actions[0]);
      InvOverRuns(Do(s, actions[0]), actions[1..]);
    }
  }

  // ---------- the promises, in every reachable state ----------

  /** No interleaving closes a channel twice. */
  lemma NoDoubleClose(now: int, actions: seq<Action>)
    ensures !Run(Fresh(now), actions).panicked
  {
    InvOverRuns(Fresh(now), actions);
  }

  /** A callback about to close a channel holds the one its timer was armed for, still current and open. */
  lemma ClosesOwnChannel(now: int, actions: seq<Action>, i: nat)
    requires i < |Run(Fresh(now), actions).timers|
    ensures var s := Run(Fresh(now), actions);
      s.timers[i].phase.Holding? ==>
        s.timers[i].phase.chan == s.timers[i].armedFor == s.cancel && s.cancel !in s.closed && s.timer == Current(i)
  {
    InvOverRuns(Fresh(now), actions);
    assert TimerOk(Run(Fresh(now), actions), i, Run(Fresh(now), actions).timers[i]);
  }

  /** A timer that is not the current one has finished or was stopped; nothing it does changes anything. */
  lemma SupersededInert(now: int, actions: seq<Action>, i: nat)
    requires i < |Run(Fresh(now), actions).timers| && Run(Fresh(now), actions).timer != Current(i)
    ensures var s := Run(Fresh(now), actions);
      && (s.timers[i].phase.Done? || s.timers[i].phase.Stopped?)
      && Do(s, Fire(i)) == Do(s, ReadCancel(i)) == Do(s, CloseRead(i)) == s
  {
    InvOverRuns(Fresh(now), actions);
    assert TimerOk(Run(Fresh(now), actions), i, Run(Fresh(now), actions).timers[i]);
  }

  /**
    When set returns, the current channel is closed exactly for a deadline that has passed,
    and a future deadline has its own timer armed for the current channel.
  */
  lemma SetReturns(now: int, actions: seq<Action>)
    requires Run(Fresh(now), actions).caller.Looked?
    ensures var s := Run(Fresh(now), actions);
      var t, target := Do(s, Act), s.caller.target;
      && t.caller == Idle && t.inForce == target
      && (t.cancel in t.closed <==> target.At? && target.time <= s.now)
      && (target.At? && target.time > s.now ==>
            t.timer.Current? && t.timer.index < |t.timers|
            && t.timers[t.timer.index] == Timer(t.cancel, target.time, Armed))
  {
    InvOverRuns(Fresh(now), actions);
  }

  /**
    Between set calls the current channel is closed exactly when the deadline in force was
    past when it was set or its timer's callback is done, and never before the deadline.
  */
  lemma ClosedExactly(now: int, actions: seq<Action>)
    requires Run(Fresh(now), actions).caller.Idle?
    ensures var s := Run(Fresh(now), actions);
      && (s.timer.Current? ==> s.timer.index < |s.timers|)
      && (s.cancel in s.closed <==>
            s.inForce.At? && (s.timer.NoTimer? || s.timers[s.timer.index].phase.Done?))
      && (s.cancel in s.closed ==> s.inForce.time <= s.now)
  {
    InvOverRuns(Fresh(now), actions);
    var s := Run(Fresh(now), actions);
    if s.timer.Current? {
      assert TimerOk(s, s.timer.index, s.timers[s.timer.index]);
    }
  }

  /** The callback of timer `i`, from the moment it is due. */
  function Callback(i: nat): seq<Action> {
    [Fire(i)] + ([ReadCancel(i)] + ([CloseRead(i)] + []))
  }

  lemma CallbackIs(s: State, i: nat)
    ensures Run(s, Callback(i)) == DoCloseRead(DoReadCancel(DoFire(s, i), i), i)
  {
    RunHead(s, Fire(i), [ReadCancel(i)] + ([CloseRead(i)] + []));
    RunHead(DoFire(s, i), ReadCancel(i), [CloseRead(i)] + []);
    RunHead(DoReadCancel(DoFire(s, i), i), CloseRead(i), []);
  }

  /** The callback of the current timer closes the current channel as soon as it is due, and never before. */
  lemma CallbackCloses(s: State, i: nat)
    requires Inv(s) && s.timer == Current(i) && i < |s.timers| && !s.timers[i].phase.Stopped?
    requires s.timers[i].phase.Done? ==> s.cancel in s.closed
    ensures var t := DoCloseRead(DoReadCancel(DoFire(s, i), i), i);
      && t.cancel == s.cancel && (s.timers[i].due <= s.now ==> t.cancel in t.closed)
      && (s.timers[i].due > s.now ==> t == s)
  {
    assert TimerOk(s, i, s.timers[i]);
  }

  /**
    A deadline that has passed gets through: between set calls the current channel is closed,
    or the callback of its timer can close it, and with it everybody who waits goes on.
  */
  lemma PassedGetsThrough(now: int, actions: seq<Action>)
    requires var s := Run(Fresh(now), actions); s.caller.Idle? && s.inForce.At? && s.inForce.time <= s.now
    ensures var s := Run(Fresh(now), actions);
      var t := Run(s, Callback(if s.timer.Current? then s.timer.index else 0));
      t.cancel == s.cancel && t.cancel in t.closed && s.handed <= t.closed
  {
    InvOverRuns(Fresh(now), actions);
    var s := Run(Fresh(now), actions);
    var i := if s.timer.Current? then s.timer.index else 0;
    CallbackIs(s, i);
    if s.timer.Current? {
      CallbackCloses(s, i);
    } else if |s.timers| > 0 {
      assert TimerOk(s, 0, s.timers[0]);
    }
    CallbackKeepsHanded(s, i);
  }

  lemma CallbackKeepsHanded(s: State, i: nat)
    requires Inv(s)
    ensures var t := DoCloseRead(DoReadCancel(DoFire(s, i), i), i);
      t.cancel == s.cancel && (t.cancel in t.closed ==> s.handed <= t.closed)
  {
  }

  /** Until the next set call the channel, the timer and the deadline in force stay what they are. */
  lemma {:induction false} QuietRun(s: State, actions: seq<Action>)
    requires s.caller.Idle? && forall a | a in actions :: !a.Lock?
    ensures var t := Run(s, actions);
      t.caller.Idle? && t.cancel == s.cancel && t.timer == s.timer && t.inForce == s.inForce
    decreases |actions|
  {
    if actions != [] {
      QuietRun(Do(s, actions[0]), actions[1..]);
    }
  }

  /** Every channel that wait ever returned is the current one or closed. */
  lemma NoLostWakeup(now: int, actions: seq<Action>, c: nat)
    requires c in Run(Fresh(now), actions).handed
    ensures c == Run(Fresh(now), actions).cancel || c in Run(Fresh(now), actions).closed
  {
    InvOverRuns(Fresh(now), actions);
  }

  lemma RunHead(s: State, a: Action, rest: seq<Action>)
    ensures Run(s, [a] + rest) == Run(Do(s, a), rest)
  {
    assert ([a] + rest)[1..] == rest;
  }

  /** No channel is closed before a deadline that was in force has passed. */
  lemma ClosedForReason(now: int, actions: seq<Action>, c: nat)
    requires c in Run(Fresh(now), actions).closed
    ensures c in Run(Fresh(now), actions).reasons && Run(Fresh(now), actions).reasons[c] <= Run(Fresh(now), actions).now
  {
    InvOverRuns(Fresh(now), actions);
  }

  /** The step that closes a channel records the deadline then in force as its reason. */
  lemma ReasonInForce(now: int, actions: seq<Action>, a: Action, c: nat)
    requires c !in Run(Fresh(now), actions).closed && c in Do(Run(Fresh(now), actions), a).closed
    ensures var t := Do(Run(Fresh(now), actions), a); c in t.reasons && t.inForce == At(t.reasons[c])
  {
    InvOverRuns(Fresh(now), actions);
    var s := Run(Fresh(now), actions);
    if a.CloseRead? && a.i < |s.timers| {
      assert TimerOk(s, a.i, s.timers[a.i]);
    }
  }

  /** So once the current channel is closed, whoever waits on any channel ever handed out can go on. */
  lemma AllWaitersWake(now: int, actions: seq<Action>)
    requires var s := Run(Fresh(now), actions); s.cancel in s.closed
    ensures var s := Run(Fresh(now), actions); s.handed <= s.closed
  {
    var s := Run(Fresh(now), actions);
    forall c | c in s.handed
      ensures c in s.closed
    {
      NoLostWakeup(now, actions, c);
    }
  }

  /** The steps that complete a set call, with those of the callback it may be waiting for. */
  function Finish(i: nat): seq<Action> {
    [StopTimer] + ([ReadCancel(i)] + ([CloseRead(i)] + ([Wake] + ([Look] + ([Act] + [])))))
  }

  function Clearing(s: State, i: nat): State {
    Do(Do(Do(Do(s, StopTimer), ReadCancel(i)), CloseRead(i)), Wake)
  }

  lemma FinishIs(s: State, i: nat)
    ensures Run(s, Finish(i)) == DoAct(DoLook(Clearing(s, i)))
  {
    var p := Do(Do(s, StopTimer), ReadCancel(i));
    RunHead(s, StopTimer, [ReadCancel(i)] + ([CloseRead(i)] + ([Wake] + ([Look] + ([Act] + [])))));
    RunHead(Do(s, StopTimer), ReadCancel(i), [CloseRead(i)] + ([Wake] + ([Look] + ([Act] + []))));
    RunHead(p, CloseRead(i), [Wake] + ([Look] + ([Act] + [])));
    RunHead(Do(p, CloseRead(i)), Wake, [Look] + ([Act] + []));
    RunHead(Clearing(s, i), Look, [Act] + []);
    RunHead(DoLook(Clearing(s, i)), Act, []);
  }

  /** The wait inside set does not deadlock: the callback it waits for can always finish. */
  lemma SetCompletes(now: int, actions: seq<Action>)
    requires !Run(Fresh(now), actions).caller.Idle?
    ensures var s := Run(Fresh(now), actions);
      var t := Run(s, Finish(if s.timer.Current? then s.timer.index else 0));
      t.caller.Idle? && t.inForce == s.caller.target
  {
    InvOverRuns(Fresh(now), actions);
    var s := Run(Fresh(now), actions);
    var i := if s.timer.Current? then s.timer.index else 0;
    FinishIs(s, i);
    WakesUp(s, i);
  }

  lemma ClearingKept(s: State, i: nat)
    requires Inv(s)
    ensures Inv(Clearing(s, i))
  {
    InvKept(s, StopTimer);
    InvKept(Do(s, StopTimer), ReadCancel(i));
    InvKept(Do(Do(s, StopTimer), ReadCancel(i)), CloseRead(i));
    InvKept(Do(Do(Do(s, StopTimer), ReadCancel(i)), CloseRead(i)), Wake);
  }

  /** A set call that runs to its end from an idle state. */
  lemma SetEnds(s: State, target: Target, i: nat)
    requires Inv(s) && s.caller.Idle? && (s.timer.Current? ==> i == s.timer.index)
    ensures var t := DoAct(DoLook(Clearing(Do(s, Lock(target)), i)));
      && Inv(t) && t.caller == Idle && t.inForce == target && t.now == s.now
      && (t.cancel in t.closed <==> target.At? && target.time <= s.now)
      && (target.At? && target.time > s.now ==>
            t.timer.Current? && t.timer.index < |t.timers|
            && t.timers[t.timer.index] == Timer(t.cancel, target.time, Armed))
  {
    var p := Do(s, Lock(target));
    InvKept(s, Lock(target));
    ClearingKept(p, i);
    WakesUp(p, i);
    SetKept(Clearing(p, i));
    ActKept(DoLook(Clearing(p, i)));
  }

  lemma WakesUp(s: State, i: nat)
    requires Inv(s) && !s.caller.Idle? && (s.timer.Current? ==> i == s.timer.index)
    ensures var t := Clearing(s, i);
      (t.caller.Cleared? || t.caller.Looked?) && t.caller.target == s.caller.target && t.now == s.now
  {
    var p := Do(s, StopTimer);
    InvKept(s, StopTimer);
    var q := Do(p, ReadCancel(i));
    InvKept(p, ReadCancel(i));
    if p.caller.Waiting? {
      assert TimerOk(q, i, q.timers[i]);
    }
  }

  // ---------- the object ----------

  /** The deadline object and, beside it, the runtime it relies on: the clock, the timers, the channels. */
  class PacketDeadline {
    var timer: Link
    var cancel: nat
    var now: int
    var timers: seq<Timer>
    var closed: set<nat>
    ghost var inForce: Target
    ghost var handed: set<nat>
    ghost var reasons: map<nat, int>

    ghost function Abs(): State
      reads this
    {
      State(now, timers, timer, cancel, closed, Idle, inForce, handed, reasons, false)
    }

    ghost predicate Valid()
      reads this
    {
      Inv(Abs())
    }

    constructor (now: int)
      ensures Valid() && Abs() == Fresh(now)
    {
      this.now, timers, timer, cancel, closed := now, [], NoTimer, 0, {};
      inForce, handed, reasons := Never, {}, map[];
    }

    /** wait */
    method WaitChannel() returns (c: nat)
      requires Valid()
      modifies this`handed
      ensures Valid() && Abs() == Do(old(Abs()), Wait)
      ensures c == cancel
    {
      c := cancel;
      handed := handed + {c};
    }

    /** One step of the callback of timer `i`, run by the runtime without the mutex. */
    method CallbackStep(i: nat)
      requires Valid() && i < |timers|
      modifies this`timers, this`closed, this`reasons
      ensures Valid()
      ensures match old(timers[i].phase) {
        case Armed => Abs() == Do(old(Abs()), Fire(i))
        case Fired => Abs() == Do(old(Abs()), ReadCancel(i))
        case _ => Abs() == Do(old(Abs()), CloseRead(i))
      }
    {
      CallbackKept(Abs(), i);
      assert TimerOk(Abs(), i, timers[i]);
      match timers[i].phase
      case Armed =>
        if timers[i].due <= now {
          timers := timers[i := timers[i].(phase := Fired)];
        }
      case Fired => timers := timers[i := timers[i].(phase := Holding(cancel))];
      case Holding(c) =>
        closed, reasons := closed + {c}, reasons[c := timers[i].due];
        timers := timers[i := timers[i].(phase := Done)];
      case _ =>
    }

    /** `<-d.cancel` with the mutex held: the callback that is under way runs to its end. */
    method AwaitCallback(i: nat)
      requires Valid() && timer == Current(i) && !timers[i].phase.Armed?
      modifies this`timers, this`closed, this`reasons
      ensures Valid() && cancel in closed
      ensures Abs() == Do(Do(old(Abs()), ReadCancel(i)), CloseRead(i))
    {
      if timers[i].phase.Fired? {
        CallbackStep(i);
      }
      assert TimerOk(Abs(), i, timers[i]);
      if timers[i].phase.Holding? {
        CallbackStep(i);
      }
    }

    /** The first lines of set: afterwards no timer is active. */
    method ClearTimer(ghost target: Target)
      requires Valid()
      modifies this`timer, this`timers, this`closed, this`reasons
      ensures var i := if old(timer).Current? then old(timer).index else 0;
        Abs().(caller := Cleared(target)) == Clearing(Do(old(Abs()), Lock(target)), i)
    {
      if timer.Current? {
        var i := timer.index;
        if timers[i].phase.Armed? {
          timers := timers[i := timers[i].(phase := Stopped)];
        } else {
          AwaitCallback(i);
        }
      } else {
        assert |timers| > 0 ==> TimerOk(Abs(), 0, timers[0]);
      }
      timer := NoTimer;
    }

    /** The rest of set, once no timer is active. */
    method Install(target: Target)
      requires timer == NoTimer
      modifies this`timer, this`cancel, this`timers, this`closed, this`inForce, this`reasons
      ensures Abs() == DoAct(DoLook(old(Abs()).(caller := Cleared(target))))
    {
      var found := cancel in closed;
      inForce := target;
      match target
      case Never =>
        if found {
          cancel := cancel + 1;
        }
      case At(time) =>
        if time > now {
          if found {
            cancel := cancel + 1;
          }
          timers, timer := timers + [Timer(cancel, time, Armed)], Current(|timers|);
        } else if !found {
          closed, reasons := closed + {cancel}, reasons[cancel := time];
        }
    }

    method Set(target: Target)
      requires Valid()
      modifies this`timer, this`cancel, this`timers, this`closed, this`inForce, this`reasons
      ensures Valid()
      ensures Abs() == Run(old(Abs()), [Lock(target)] + Finish(if old(timer).Current? then old(timer).index else 0))
      ensures inForce == target && (cancel in closed <==> target.At? && target.time <= now)
      ensures target.At? && target.time > now ==>
        timer.Current? && timer.index < |timers| && timers[timer.index] == Timer(cancel, target.time, Armed)
    {
      ghost var i := if timer.Current? then timer.index else 0;
      ghost var s := Do(Abs(), Lock(target));
      RunHead(Abs(), Lock(target), Finish(i));
      FinishIs(s, i);
      SetEnds(Abs(), target, i);
      ClearTimer(target);
      Install(target);
    }
  }
}
