/**
 Clearing a thread pool (Stack/core/opcua_threadpool.c) while its workers, each in a thread of its own
 (Stack/core/opcua_thread.c), come to their end: Clear stops the pool, waits for the shutdown of one
 thread after the other without a timeout, and frees the mutex, the semaphores and the job list.
 */
module PoolShutdown {
  import opened Basics
  import ThreadPools
  import Threads

  datatype System = System(
    pool: ThreadPools.Pool,
    /** The thread of each worker; Clear is its only waiter. */
    threads: seq<Threads.Thread>,
    /** The index of the thread that Clear waits for. */
    clear: nat,
    freed: bool)

  datatype Step =
    | PoolStep(step: ThreadPools.Step)
    | ThreadReturns(i: nat)
    | ThreadEnds(i: nat)
    | ClearWaits(action: Threads.Action)
    | ClearGoesOn
    | ClearFrees

  predicate Waiting(a: Threads.Action) {
    a == Threads.Asks(0) || a == Threads.Wakes(0) || a == Threads.TimesOut(0) || a == Threads.Finishes(0)
  }

  predicate Enabled(s: System, step: Step) {
    match step
    case PoolStep(p) =>
      ThreadPools.Enabled(s.pool, p) && (ThreadPools.WorkerStep(p) ==> p.i < |s.threads| && s.threads[p.i].main.Executing?)
    case ThreadReturns(i) =>
      i < |s.threads| && i < |s.pool.workers| && s.pool.workers[i].Exited? && Threads.Enabled(s.threads[i], Threads.MainReturns)
    case ThreadEnds(i) => i < |s.threads| && Threads.Enabled(s.threads[i], Threads.Ends)
    case ClearWaits(a) => s.pool.bStop && s.clear < |s.threads| && Waiting(a) && Threads.Enabled(s.threads[s.clear], a)
    case ClearGoesOn => s.pool.bStop && s.clear < |s.threads| && s.threads[s.clear].waiters != [] && s.threads[s.clear].waiters[0].Done?
    case ClearFrees => s.pool.bStop && s.clear == |s.threads| && !s.freed
  }

  function Do(s: System, step: Step): System
    requires Enabled(s, step)
  {
    match step
    case PoolStep(p) => s.(pool := ThreadPools.Do(s.pool, p))
    case ThreadReturns(i) => s.(threads := s.threads[i := Threads.Do(s.threads[i], Threads.MainReturns)])
    case ThreadEnds(i) => s.(threads := s.threads[i := Threads.Do(s.threads[i], Threads.Ends)])
    case ClearWaits(a) => s.(threads := s.threads[s.clear := Threads.Do(s.threads[s.clear], a)])
    // whatever WaitForShutdown returned
    case ClearGoesOn => s.(clear := s.clear + 1)
    case ClearFrees => s.(freed := true)
  }

  predicate Possible(s: System, steps: seq<Step>)
    decreases |steps|
  {
    steps == [] || (Enabled(s, steps[0]) && Possible(Do(s, steps[0]), steps[1..]))
  }

  function Run(s: System, steps: seq<Step>): System
    requires Possible(s, steps)
    decreases |steps|
  {
    if steps == [] then s else Run(Do(s, steps[0]), steps[1..])
  }

  /** A thread that was created and started. */
  function StartedThread(): Threads.Thread {
    Threads.Do(Threads.Created([true]), Threads.Starts)
  }

  function Initialized(threads: nat, callers: nat, maxJobs: nat, blockIfFull: bool): System {
    System(ThreadPools.Initialized(threads, callers, maxJobs, blockIfFull), seq(threads, _ => StartedThread()), 0, false)
  }

  // ----- invariant -----

  ghost predicate ThreadInv(t: Threads.Thread, w: ThreadPools.Worker) {
    && Threads.Inv(t) && t.infinite == [true] && !t.main.NotStarted?
    && (t.main.Returned? || t.main.Ended? ==> w.Exited?)
    && (t.waiters[0].Done? ==> t.waiters[0].started)
  }

  ghost predicate Inv(s: System) {
    && ThreadPools.Stopping(s.pool)
    && |s.threads| == |s.pool.workers| && s.clear <= |s.threads|
    && (forall i :: 0 <= i < |s.threads| ==> ThreadInv(s.threads[i], s.pool.workers[i]))
    && (forall i :: 0 <= i < s.clear ==> s.threads[i].main.Ended?)
    && (s.freed ==> s.pool.bStop && s.clear == |s.threads|)
  }

  lemma ThreadStepKeeps(t: Threads.Thread, w: ThreadPools.Worker, a: Threads.Action)
    requires ThreadInv(t, w) && Threads.Enabled(t, a) && (Waiting(a) || a.Ends? || (a.MainReturns? && w.Exited?))
    ensures ThreadInv(Threads.Do(t, a), w)
    ensures t.main.Ended? ==> Threads.Do(t, a).main.Ended?
  {
    Threads.StepKeepsInv(t, a);
  }

  lemma PoolStepKeeps(s: System, p: ThreadPools.Step)
    requires Inv(s) && Enabled(s, PoolStep(p))
    ensures Inv(Do(s, PoolStep(p)))
  {
    hide Threads.Inv, ThreadPools.Stopping;
    ThreadPools.StepStopping(s.pool, p);
    var t := Do(s, PoolStep(p));
    WorkersOfStep(s.pool, p);
    forall i | 0 <= i < |t.threads|
      ensures ThreadInv(t.threads[i], t.pool.workers[i])
    {
      assert ThreadInv(s.threads[i], s.pool.workers[i]);
    }
    if s.freed {
      NoPoolStepAfterEnd(s, p);
    }
  }

  /** A step of the pool changes at most the worker whose step it is. */
  lemma WorkersOfStep(s: ThreadPools.Pool, p: ThreadPools.Step)
    requires ThreadPools.Enabled(s, p)
    ensures var t := ThreadPools.Do(s, p);
      && |t.workers| == |s.workers| && (s.bStop ==> t.bStop)
      && forall i :: 0 <= i < |s.workers| && !(ThreadPools.WorkerStep(p) && p.i == i) ==> t.workers[i] == s.workers[i]
  {
  }

  /** When all threads have ended, neither a worker nor a caller of AddJob can take a step. */
  lemma NoPoolStepAfterEnd(s: System, p: ThreadPools.Step)
    requires Inv(s) && s.pool.bStop && s.clear == |s.threads|
    ensures !Enabled(s, PoolStep(p))
  {
  }

  lemma StepKeepsInv(s: System, step: Step)
    requires Inv(s) && Enabled(s, step)
    ensures Inv(Do(s, step))
  {
    hide ThreadPools.Stopping, ThreadInv;
    match step {
      case PoolStep(p) => PoolStepKeeps(s, p);
      case ThreadReturns(i) => ThreadStepKeeps(s.threads[i], s.pool.workers[i], Threads.MainReturns);
      case ThreadEnds(i) => ThreadStepKeeps(s.threads[i], s.pool.workers[i], Threads.Ends);
      case ClearWaits(a) => ThreadStepKeeps(s.threads[s.clear], s.pool.workers[s.clear], a);
      case ClearGoesOn => GoneOnMeansEnded(s);
      case ClearFrees =>
    }
  }

  /** Clear only goes on to the next thread when the one it waited for has ended. */
  lemma GoneOnMeansEnded(s: System)
    requires Inv(s) && Enabled(s, ClearGoesOn)
    ensures s.threads[s.clear].main.Ended?
  {
  }

  lemma {:induction false} RunKeepsInv(s: System, steps: seq<Step>)
    requires Inv(s) && Possible(s, steps)
    ensures Inv(Run(s, steps))
    decreases |steps|
  {
    hide Inv, Do, Enabled;
    if steps == [] {
    } else {
      StepKeepsInv(s, steps[0]);
      RunKeepsInv(Do(s, steps[0]), steps[1..]);
    }
  }

  lemma InitializedInv(threads: nat, callers: nat, maxJobs: nat, blockIfFull: bool)
    ensures Inv(Initialized(threads, callers, maxJobs, blockIfFull))
  {
  }

  // ----- what every run guarantees -----

  /** Over any interleaving: when Clear frees the pool's mutex, semaphores and job list, every worker
      has exited and its thread has ended, and no step of the pool is possible any more. */
  lemma FreedOnlyWhenAllEnded(threads: nat, callers: nat, maxJobs: nat, blockIfFull: bool, steps: seq<Step>, p: ThreadPools.Step)
    requires Possible(Initialized(threads, callers, maxJobs, blockIfFull), steps)
    requires Run(Initialized(threads, callers, maxJobs, blockIfFull), steps).freed
    ensures var s := Run(Initialized(threads, callers, maxJobs, blockIfFull), steps);
      && (forall i :: 0 <= i < |s.threads| ==> s.threads[i].main.Ended?)
      && ThreadPools.AllExited(s.pool)
      && !Enabled(s, PoolStep(p))
  {
    hide Run, Enabled, ThreadPools.Stopping;
    InitializedInv(threads, callers, maxJobs, blockIfFull);
    RunKeepsInv(Initialized(threads, callers, maxJobs, blockIfFull), steps);
    var s := Run(Initialized(threads, callers, maxJobs, blockIfFull), steps);
    NoPoolStepAfterEnd(s, p);
    forall i | 0 <= i < |s.pool.workers|
      ensures s.pool.workers[i].Exited?
    {
      assert ThreadInv(s.threads[i], s.pool.workers[i]);
    }
  }

  /** Over any interleaving: a pool that was told to stop never gets stuck before it is freed. */
  lemma ClearNeverStuck(threads: nat, callers: nat, maxJobs: nat, blockIfFull: bool, steps: seq<Step>) returns (step: Step)
    requires Possible(Initialized(threads, callers, maxJobs, blockIfFull), steps)
    requires Run(Initialized(threads, callers, maxJobs, blockIfFull), steps).pool.bStop
    requires !Run(Initialized(threads, callers, maxJobs, blockIfFull), steps).freed
    ensures Enabled(Run(Initialized(threads, callers, maxJobs, blockIfFull), steps), step)
  {
    hide Run;
    InitializedInv(threads, callers, maxJobs, blockIfFull);
    RunKeepsInv(Initialized(threads, callers, maxJobs, blockIfFull), steps);
    step := StepOfClear(Run(Initialized(threads, callers, maxJobs, blockIfFull), steps));
  }

  lemma StepOfClear(s: System) returns (step: Step)
    requires Inv(s) && s.pool.bStop && !s.freed
    ensures Enabled(s, step)
  {
    var i := s.clear;
    if i == |s.threads| {
      return ClearFrees;
    }
    var t := s.threads[i];
    assert ThreadInv(t, s.pool.workers[i]);
    match t.waiters[0] {
      case Outside => return ClearWaits(Threads.Asks(0));
      case Awake => return ClearWaits(Threads.Finishes(0));
      case Done(_, _) => return ClearGoesOn;
      case Blocked =>
        match t.main {
          case Ended => return ClearWaits(Threads.Wakes(0));
          case Returned => return ThreadEnds(i);
          case Executing =>
            if s.pool.workers[i].Exited? {
              return ThreadReturns(i);
            }
            var p := ThreadPools.StepOfWorker(s.pool, i);
            return PoolStep(p);
        }
    }
  }
}
