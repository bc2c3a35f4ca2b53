/**
 The thread object of Stack/core/opcua_thread.c: a running flag and a shutdown semaphore under a
 mutex, with any number of threads that wait for the shutdown. The thread is started once. Each
 critical section of the mutex and each semaphore operation is one step.
 */
module Threads {
  import opened Basics

  datatype Main = NotStarted | Executing | Returned | Ended

  /** A caller of WaitForShutdown. `started` records whether the thread had been started when it called. */
  datatype Waiter =
    | Outside
    | Blocked
    | Awake
    | Done(status: Status, started: bool)

  datatype Thread = Thread(
    isRunning: bool,
    shutdownEvent: nat,
    main: Main,
    waiters: seq<Waiter>,
    /** Which of the callers wait without a timeout. */
    infinite: seq<bool>)

  datatype Action =
    | Starts
    | MainReturns
    | Ends
    | Asks(w: nat)
    | Wakes(w: nat)
    | TimesOut(w: nat)
    | Finishes(w: nat)

  predicate WaiterIs(t: Thread, w: nat, b: Waiter) {
    w < |t.waiters| == |t.infinite| && t.waiters[w] == b
  }

  predicate Enabled(t: Thread, a: Action) {
    match a
    case Starts => t.main.NotStarted? && t.shutdownEvent > 0
    case MainReturns => t.main.Executing?
    case Ends => t.main.Returned?
    case Asks(w) => WaiterIs(t, w, Outside)
    case Wakes(w) => WaiterIs(t, w, Blocked) && t.shutdownEvent > 0
    case TimesOut(w) => WaiterIs(t, w, Blocked) && !t.infinite[w]
    case Finishes(w) => WaiterIs(t, w, Awake)
  }

  /** A post on the shutdown event, whose maximum is one. */
  function Posted(t: Thread): Thread {
    t.(shutdownEvent := 1)
  }

  function Do(t: Thread, a: Action): Thread
    requires Enabled(t, a)
  {
    match a
    case Starts => t.(shutdownEvent := t.shutdownEvent - 1, isRunning := true, main := Executing)
    case MainReturns => t.(main := Returned)
    case Ends => Posted(t.(isRunning := false, main := Ended))
    case Asks(w) =>
      t.(waiters := t.waiters[w := if t.isRunning then Blocked else Done(Good, !t.main.NotStarted?)])
    case Wakes(w) => t.(shutdownEvent := t.shutdownEvent - 1, waiters := t.waiters[w := Awake])
    case TimesOut(w) => t.(waiters := t.waiters[w := Awake])
    case Finishes(w) =>
      if t.isRunning then t.(waiters := t.waiters[w := Done(GoodNonCriticalTimeout, true)])
      // release the semaphore again for the other waiters
      else Posted(t).(waiters := t.waiters[w := Done(Good, true)])
  }

  predicate Possible(t: Thread, actions: seq<Action>)
    decreases |actions|
  {
    actions == [] || (Enabled(t, actions[0]) && Possible(Do(t, actions[0]), actions[1..]))
  }

  function Run(t: Thread, actions: seq<Action>): Thread
    requires Possible(t, actions)
    decreases |actions|
  {
    if actions == [] then t else Run(Do(t, actions[0]), actions[1..])
  }

  /** As Create leaves it: not running, the event signalled. */
  function Created(infinite: seq<bool>): Thread {
    Thread(false, 1, NotStarted, seq(|infinite|, _ => Outside), infinite)
  }

  predicate AnyAwake(t: Thread) {
    exists w :: 0 <= w < |t.waiters| && t.waiters[w].Awake?
  }

  ghost predicate Inv(t: Thread) {
    && |t.waiters| == |t.infinite|
    && t.shutdownEvent <= 1
    && (t.isRunning <==> t.main.Executing? || t.main.Returned?)
    && (t.main.NotStarted? ==> t.shutdownEvent == 1)
    && (t.isRunning ==> t.shutdownEvent == 0)
    // the permit is stored, or in the hands of a waiter that will post it again
    && (t.main.Ended? ==> t.shutdownEvent == 1 || AnyAwake(t))
    && (forall w :: 0 <= w < |t.waiters| ==> WaiterInv(t, t.waiters[w], t.infinite[w]))
  }

  predicate WaiterInv(t: Thread, w: Waiter, infinite: bool) {
    match w
    case Outside => true
    case Blocked => !t.main.NotStarted?
    case Awake => !t.main.NotStarted? && (infinite ==> t.main.Ended?)
    case Done(status, started) =>
      (status == Good && started ==> t.main.Ended?) && (infinite ==> status == Good) && (status == Good || status == GoodNonCriticalTimeout)
  }

  lemma StepKeepsInv(t: Thread, a: Action)
    requires Inv(t) && Enabled(t, a)
    ensures Inv(Do(t, a))
  {
    var u := Do(t, a);
    if u.main.Ended? && u.shutdownEvent == 0 {
      if a.Wakes? {
        assert u.waiters[a.w] == Awake;
      } else {
        var w :| 0 <= w < |t.waiters| && t.waiters[w].Awake?;
        assert u.waiters[w].Awake?;
      }
    }
  }

  lemma {:induction false} RunKeepsInv(t: Thread, actions: seq<Action>)
    requires Inv(t) && Possible(t, actions)
    ensures Inv(Run(t, actions))
    decreases |actions|
  {
    hide Inv, Do, Enabled;
    if actions == [] {
    } else {
      StepKeepsInv(t, actions[0]);
      RunKeepsInv(Do(t, actions[0]), actions[1..]);
    }
  }

  /** Over any interleaving of any number of waiters: who asked after the start is told Good only when
      the main function has returned, and who waits without a timeout is never told anything else. */
  lemma GoodMeansEnded(infinite: seq<bool>, actions: seq<Action>, w: nat)
    requires Possible(Created(infinite), actions) && w < |infinite|
    ensures var t := Run(Created(infinite), actions);
      |t.waiters| == |infinite| && t.infinite == infinite &&
      (t.waiters[w].Done? ==>
        && (t.waiters[w].status == Good && t.waiters[w].started ==> t.main.Ended?)
        && (infinite[w] ==> t.waiters[w].status == Good))
  {
    RunKeepsInv(Created(infinite), actions);
    InfiniteIsConstant(Created(infinite), actions);
  }

  lemma {:induction false} InfiniteIsConstant(t: Thread, actions: seq<Action>)
    requires Possible(t, actions)
    ensures Run(t, actions).infinite == t.infinite
    decreases |actions|
  {
    if actions == [] {
    } else {
      InfiniteIsConstant(Do(t, actions[0]), actions[1..]);
    }
  }

  /** Over any interleaving: once the thread has ended, a blocked waiter can be woken at once, or after
      another one that is awake has posted the event again. */
  lemma NoWaiterIsForgotten(infinite: seq<bool>, actions: seq<Action>, w: nat)
    requires Possible(Created(infinite), actions)
    requires Run(Created(infinite), actions).main.Ended? && WaiterIs(Run(Created(infinite), actions), w, Blocked)
    ensures var t := Run(Created(infinite), actions);
      Enabled(t, Wakes(w)) || exists v :: Enabled(t, Finishes(v)) && Enabled(Do(t, Finishes(v)), Wakes(w))
  {
    RunKeepsInv(Created(infinite), actions);
    var t := Run(Created(infinite), actions);
    if t.shutdownEvent == 0 {
      var v :| 0 <= v < |t.waiters| && t.waiters[v].Awake?;
      assert Enabled(t, Finishes(v)) && Enabled(Do(t, Finishes(v)), Wakes(w));
    }
  }
}
