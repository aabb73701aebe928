/**
 The background sweeper and its shutdown, as a state machine over the two mutexes, the
 stopping flag and the condition variable. The destructor sets the flag and notifies
 without holding sweeperMutex_, so a notification can be lost; that the sweeper still
 stops rests on the timeout of its wait.
 */
module Sweeper {
  import opened Outcomes

  /** Where the sweeper thread is. */
  datatype Pc =
    | Starting                    // about to lock sweeperMutex_ for the first time
    | LoopTest                    // about to test the flag in the loop condition
    | WaitTest                    // about to test the flag as the predicate of the wait
    | GoingToSleep                // has read the flag as false and is not yet waiting
    | Blocked(signalled: bool)    // waiting on the condition variable
    | Reacquire(timedOut: bool)   // awake, about to lock sweeperMutex_ again
    | AfterWait                   // about to test the flag after the wait
    | SweepLock                   // about to lock mutex_
    | Sweeping                    // inside the sweep
    | Exiting                     // has left the loop, about to unlock sweeperMutex_
    | Exited

  datatype Destructor = Alive | FlagSet | Notified | Joined

  datatype Thread = SweeperThread | Client(id: nat)

  datatype State = State(
    pc: Pc,
    destructor: Destructor,
    stopping: bool,
    mutex: Option<Thread>,          // the holder of mutex_
    sweeperMutex: Option<Thread>)   // the holder of sweeperMutex_

  datatype Wake = ByNotification | Spurious | ByTimeout

  datatype Action =
    | SweeperStep(wake: Wake)   // the wake matters only while blocked
    | SetFlag
    | NotifyAll
    | Join
    | ClientLock(id: nat)       // a get or a put begins
    | ClientUnlock(id: nat)     // and ends

  const START := State(Starting, Alive, false, None, None)

  /** One step of the sweeper; None when it cannot move. */
  function Advance(s: State, wake: Wake): Option<State> {
    match s.pc
    case Starting =>
      if s.sweeperMutex.Some? then None else Some(s.(pc := LoopTest, sweeperMutex := Some(SweeperThread)))
    case LoopTest => Some(s.(pc := if s.stopping then Exiting else WaitTest))
    case WaitTest => Some(s.(pc := if s.stopping then AfterWait else GoingToSleep))
    case GoingToSleep => Some(s.(pc := Blocked(false), sweeperMutex := None))
    case Blocked(signalled) =>
      if wake.ByNotification? && !signalled then None
      else Some(s.(pc := Reacquire(wake.ByTimeout?)))
    case Reacquire(timedOut) =>
      if s.sweeperMutex.Some? then None
      else Some(s.(pc := if timedOut then AfterWait else WaitTest, sweeperMutex := Some(SweeperThread)))
    case AfterWait => Some(s.(pc := if s.stopping then Exiting else SweepLock))
    case SweepLock =>
      if s.mutex.Some? then None else Some(s.(pc := Sweeping, mutex := Some(SweeperThread)))
    case Sweeping => Some(s.(pc := LoopTest, mutex := None))
    case Exiting => Some(s.(pc := Exited, sweeperMutex := None))
    case Exited => None
  }

  /** One step of any thread; None when the action is not possible. */
  function Do(s: State, a: Action): Option<State> {
    match a
    case SweeperStep(wake) => Advance(s, wake)
    case SetFlag => if s.destructor.Alive? then Some(s.(destructor := FlagSet, stopping := true)) else None
    case NotifyAll =>
      if !s.destructor.FlagSet? then None
      else Some(s.(destructor := Notified, pc := if s.pc.Blocked? then Blocked(true) else s.pc))
    case Join => if s.destructor.Notified? && s.pc.Exited? then Some(s.(destructor := Joined)) else None
    case ClientLock(id) => if s.mutex.None? then Some(s.(mutex := Some(Client(id)))) else None
    case ClientUnlock(id) => if s.mutex == Some(Client(id)) then Some(s.(mutex := None)) else None
  }

  /** The state after a run, if every action of it is possible when its turn comes. */
  function Run(s: State, actions: seq<Action>): Option<State>
    decreases actions
  {
    if actions == [] then Some(s)
    else match Do(s, actions[0])
      case None => None
      case Some(s') => Run(s', actions[1..])
  }

  ghost predicate Reachable(s: State) {
    exists actions :: Run(START, actions) == Some(s)
  }

  // ----- what every reachable state keeps

  ghost predicate Inv(s: State) {
    && (s.sweeperMutex == if s.pc.Starting? || s.pc.Blocked? || s.pc.Reacquire? || s.pc.Exited?
                          then None else Some(SweeperThread))
    && (s.mutex == Some(SweeperThread) <==> s.pc.Sweeping?)
    && (s.stopping <==> !s.destructor.Alive?)
    && (s.destructor.Joined? ==> s.pc.Exited?)
    && (s.pc.Exited? || s.pc.Exiting? ==> s.stopping)
  }

  lemma {:induction false} RunInv(s: State, actions: seq<Action>)
    requires Inv(s) && Run(s, actions).Some?
    ensures Inv(Run(s, actions).value)
    decreases actions
  {
    if actions != [] { RunInv(Do(s, actions[0]).value, actions[1..]); }
  }

  /** A thread waits for at most one mutex; this is the one, if it is held by another. */
  ghost function WaitsFor(s: State, t: Thread): Option<Thread> {
    if t.Client? then (if s.mutex != Some(t) then s.mutex else None)
    else if s.pc.SweepLock? then s.mutex
    else if s.pc.Starting? || s.pc.Reacquire? then s.sweeperMutex
    else None
  }

  /** No lock cycle: whoever a thread waits for waits for nobody. */
  lemma NoLockCycle(s: State, t: Thread)
    requires Reachable(s)
    ensures WaitsFor(s, t).Some? ==> WaitsFor(s, t).value != t && WaitsFor(s, WaitsFor(s, t).value) == None
  {
    var actions :| Run(START, actions) == Some(s);
    RunInv(START, actions);
  }

  /** While the sweeper sweeps it holds mutex_, so that no get or put is under way and none can begin. */
  lemma SweepExcludes(s: State, id: nat)
    requires Reachable(s) && s.pc.Sweeping?
    ensures s.mutex == Some(SweeperThread) && Do(s, ClientLock(id)).None? && Do(s, ClientUnlock(id)).None?
  {
    var actions :| Run(START, actions) == Some(s);
    RunInv(START, actions);
  }

  /** After the join the sweeper never runs again, so nothing sweeps a destroyed cache. */
  lemma NoSweepAfterJoin(s: State, actions: seq<Action>)
    requires Reachable(s) && s.destructor.Joined? && Run(s, actions).Some?
    ensures Run(s, actions).value.pc.Exited? && forall i :: 0 <= i < |actions| ==> !actions[i].SweeperStep?
  {
    var before :| Run(START, before) == Some(s);
    RunInv(START, before);
    StaysJoined(s, actions);
  }

  lemma {:induction false} StaysJoined(s: State, actions: seq<Action>)
    requires s.destructor.Joined? && s.pc.Exited? && Run(s, actions).Some?
    ensures Run(s, actions).value.pc.Exited? && forall i :: 0 <= i < |actions| ==> !actions[i].SweeperStep?
    decreases actions
  {
    if actions != [] {
      assert !actions[0].SweeperStep?;
      StaysJoined(Do(s, actions[0]).value, actions[1..]);
      assert forall i :: 1 <= i < |actions| ==> actions[i] == actions[1..][i - 1];
    }
  }

  /** The other threads are not held back: mutex_ can be taken when it is free, and the destructor goes on. */
  lemma Unrestricted(s: State, id: nat)
    ensures Do(s, ClientLock(id)) == if s.mutex == None then Some(s.(mutex := Some(Client(id)))) else None
    ensures Do(s, ClientUnlock(id)) == if s.mutex == Some(Client(id)) then Some(s.(mutex := None)) else None
    ensures s.destructor.Alive? ==> Do(s, SetFlag) == Some(s.(destructor := FlagSet, stopping := true))
    ensures s.destructor.FlagSet? ==> Do(s, NotifyAll).Some?
    ensures s.destructor.Notified? && s.pc.Exited? ==> Do(s, Join) == Some(s.(destructor := Joined))
    ensures s.pc.Blocked? ==> Do(s, SweeperStep(Spurious)).Some? && Do(s, SweeperStep(ByTimeout)).Some?
  {
  }

  // ----- counting

  /** How many steps the sweeper can still take once the flag is set. */
  ghost function StepsLeft(pc: Pc): nat {
    match pc
    case Exited => 0
    case Exiting => 1
    case Starting => 3
    case LoopTest => 2
    case AfterWait => 2
    case WaitTest => 3
    case Sweeping => 3
    case SweepLock => 4
    case Reacquire(timedOut) => if timedOut then 3 else 4
    case Blocked(_) => 5
    case GoingToSleep => 6
  }

  /** The sweeps that can still begin, and the waits that can still time out, once the flag is set. */
  ghost function SweepsLeft(pc: Pc): nat { if pc.SweepLock? then 1 else 0 }
  ghost function TimeoutsLeft(pc: Pc): nat { if pc.Blocked? || pc.GoingToSleep? then 1 else 0 }

  ghost function SweeperSteps(actions: seq<Action>): nat {
    if actions == [] then 0 else (if actions[0].SweeperStep? then 1 else 0) + SweeperSteps(actions[1..])
  }

  /** The sweeps a run begins. */
  ghost function SweepsBegun(s: State, actions: seq<Action>): nat
    requires Run(s, actions).Some?
    decreases actions
  {
    if actions == [] then 0
    else
      var s' := Do(s, actions[0]).value;
      (if !s.pc.Sweeping? && s'.pc.Sweeping? then 1 else 0) + SweepsBegun(s', actions[1..])
  }

  /** The waits of a run that end by timeout. */
  ghost function Timeouts(s: State, actions: seq<Action>): nat
    requires Run(s, actions).Some?
    decreases actions
  {
    if actions == [] then 0
    else (if s.pc.Blocked? && actions[0] == SweeperStep(ByTimeout) then 1 else 0)
         + Timeouts(Do(s, actions[0]).value, actions[1..])
  }

  // ----- sweeping, as long as the flag is not set

  /** A wait has timed out, and the sweep it calls for has not begun. */
  ghost function Owed(pc: Pc): nat {
    if pc == Reacquire(true) || pc.AfterWait? || pc.SweepLock? then 1 else 0
  }

  /** The flag is never taken back. */
  lemma {:induction false} FlagStays(s: State, actions: seq<Action>)
    requires s.stopping && Run(s, actions).Some?
    ensures Run(s, actions).value.stopping
    decreases actions
  {
    if actions != [] { FlagStays(Do(s, actions[0]).value, actions[1..]); }
  }

  /**
   Until the flag is set, each wait that times out is followed by exactly one sweep, and there are
   no others: in every run the sweeps begun, and the one that may be owed, are the timeouts.
   */
  lemma {:induction false} SweepPerTimeout(s: State, actions: seq<Action>)
    requires Run(s, actions).Some? && !Run(s, actions).value.stopping
    ensures SweepsBegun(s, actions) + Owed(Run(s, actions).value.pc) == Timeouts(s, actions) + Owed(s.pc)
    decreases actions
  {
    if actions != [] {
      var s' := Do(s, actions[0]).value;
      if s'.stopping { FlagStays(s', actions[1..]); }
      assert !s'.stopping && !s.stopping;
      SweepPerTimeout(s', actions[1..]);
    }
  }

  /** How far the sweeper is from its next sweep, if its waits time out. */
  ghost function StepsToSweep(pc: Pc): nat {
    match pc
    case Starting => 8
    case LoopTest => 7
    case WaitTest => 6
    case GoingToSleep => 5
    case Blocked(_) => 4
    case Reacquire(timedOut) => if timedOut then 3 else 7
    case AfterWait => 2
    case SweepLock => 1
    case Sweeping => 8
    case Exiting => 0
    case Exited => 0
  }

  /** And from wherever it is, as long as the flag is not set, there is a run in which it sweeps again. */
  lemma {:induction false} CanSweep(s: State) returns (actions: seq<Action>)
    requires Inv(s) && !s.stopping
    ensures Run(s, actions).Some? && SweepsBegun(s, actions) >= 1 && !Run(s, actions).value.stopping
    ensures forall i :: 0 <= i < |actions| ==> actions[i] == SweeperStep(ByTimeout) || actions[i].ClientUnlock?
    decreases StepsToSweep(s.pc), if s.mutex.Some? then 1 else 0
  {
    var a := if s.pc.SweepLock? && s.mutex.Some? then ClientUnlock(s.mutex.value.id) else SweeperStep(ByTimeout);
    var s' := Do(s, a).value;
    if s.pc.SweepLock? && s.mutex.None? {
      actions := [a];
      assert Run(s', []) == Some(s');
    } else {
      var rest := CanSweep(s');
      actions := [a] + rest;
      assert actions[1..] == rest;
    }
  }

  // ----- shutdown, once it is set

  /**
   Once the flag is set, every step of the sweeper brings its exit nearer: whatever the other
   threads do and whether or not the notification arrives, it takes at most six more steps,
   begins at most one more sweep and sits out at most one more timeout.
   */
  lemma {:induction false} ShutdownBounded(s: State, actions: seq<Action>)
    requires s.stopping && Run(s, actions).Some?
    ensures var s' := Run(s, actions).value;
      && SweeperSteps(actions) + StepsLeft(s'.pc) <= StepsLeft(s.pc) <= 6
      && SweepsBegun(s, actions) + SweepsLeft(s'.pc) <= SweepsLeft(s.pc) <= 1
      && Timeouts(s, actions) + TimeoutsLeft(s'.pc) <= TimeoutsLeft(s.pc) <= 1
    decreases actions
  {
    if actions != [] { ShutdownBounded(Do(s, actions[0]).value, actions[1..]); }
  }

  /** And the sweeper is never stuck: it can move, or a get or a put holds mutex_ and can give it back. */
  lemma NotStuck(s: State)
    requires Reachable(s) && !s.pc.Exited?
    ensures Do(s, SweeperStep(ByTimeout)).None? ==>
      && s.mutex.Some? && s.mutex.value.Client?
      && Do(s, ClientUnlock(s.mutex.value.id)).Some?
      && Do(Do(s, ClientUnlock(s.mutex.value.id)).value, SweeperStep(ByTimeout)).Some?
  {
    var actions :| Run(START, actions) == Some(s);
    RunInv(START, actions);
  }

  /**
   The destructor can always complete: from every reachable state in which the flag is set there
   is a run, using neither the notification nor a spurious wake-up, that ends joined.
   */
  lemma {:induction false} CanJoin(s: State) returns (actions: seq<Action>)
    requires Inv(s) && s.stopping
    ensures Run(s, actions).Some? && Run(s, actions).value.destructor.Joined?
    ensures forall i :: 0 <= i < |actions| ==> actions[i].SweeperStep? ==> actions[i].wake == ByTimeout
    decreases (if s.destructor.FlagSet? then 2 else if s.destructor.Notified? then 1 else 0)
      + 2 * StepsLeft(s.pc) + if s.mutex.Some? then 1 else 0
  {
    if s.destructor.Joined? {
      return [];
    }
    var a :=
      if s.destructor.FlagSet? then NotifyAll
      else if s.pc.Exited? then Join
      else if s.pc.SweepLock? && s.mutex.Some? then ClientUnlock(s.mutex.value.id)
      else SweeperStep(ByTimeout);
    var s' := Do(s, a).value;
    var rest := CanJoin(s');
    actions := [a] + rest;
    assert actions[1..] == rest;
  }

  /**
   The notification reaches the sweeper exactly if it is blocked at that moment, and it need not
   be: here it is left waiting, unsignalled, after the only notification there will be.
   */
  lemma NotificationCanBeLost()
    ensures forall s :: Do(s, NotifyAll).Some? ==> (Do(s, NotifyAll).value.pc == Blocked(true) <==> s.pc.Blocked?)
    ensures Reachable(State(Blocked(false), Notified, true, None, None))
    ensures Do(State(Blocked(false), Notified, true, None, None), SweeperStep(ByNotification)) == None
  {
    var wake := SweeperStep(Spurious);
    var actions := [wake, wake, wake, SetFlag, NotifyAll, wake];
    var s0 := Do(START, wake).value;
    var s1 := Do(s0, wake).value;
    var s2 := Do(s1, wake).value;
    var s3 := Do(s2, SetFlag).value;
    var s4 := Do(s3, NotifyAll).value;
    var s5 := Do(s4, wake).value;
    assert Run(s4, [wake]) == Some(s5);
    assert Run(s3, [NotifyAll, wake]) == Run(s4, [wake]) by { assert [NotifyAll, wake][1..] == [wake]; }
    assert Run(s2, [SetFlag, NotifyAll, wake]) == Run(s3, [NotifyAll, wake]) by {
      assert [SetFlag, NotifyAll, wake][1..] == [NotifyAll, wake];
    }
    assert Run(s0, [wake, wake, SetFlag, NotifyAll, wake]) == Some(s5) by {
      assert [wake, wake, SetFlag, NotifyAll, wake][1..][1..] == [SetFlag, NotifyAll, wake];
    }
    assert actions[1..] == [wake, wake, SetFlag, NotifyAll, wake];
    assert Run(START, actions) == Some(s5);
  }
}
