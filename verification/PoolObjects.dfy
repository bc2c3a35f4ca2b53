/**
 The objects behind the step systems of the thread pool (Stack/core/opcua_threadpool.c) and of the thread
 (Stack/core/opcua_thread.c): their fields, and one method for each critical section and semaphore
 operation. Each method is proved to do to the fields what the step of the same name does to the value,
 for every state of the other threads. The job list is the linked list of `Lists`.
 */
module PoolObjects {
  import opened Basics
  import opened Lists
  import P = ThreadPools
  import T = Threads

  class ThreadPool {
    const JobList: List<P.Job>
    const uNoOfStaticThreads: nat
    const uNoOfJobsMax: nat
    const bBlockIfFull: bool
    var hJobAdded: nat
    var hQueueOpenSemaphore: nat
    var uNoOfJobs: nat
    var uJobId: nat
    var bStop: bool

    /** The fields are those of the pool `s`, whatever its workers and callers are doing. */
    ghost predicate Is(s: P.Pool)
      reads this, JobList, JobList.Nodes
    {
      && JobList.Valid() && JobList.Items == s.jobList
      && |s.workers| == uNoOfStaticThreads && s.uNoOfJobsMax == uNoOfJobsMax && s.bBlockIfFull == bBlockIfFull
      && s.hJobAdded == hJobAdded && s.hQueueOpen == hQueueOpenSemaphore
      && s.uNoOfJobs == uNoOfJobs && s.uJobId == uJobId && s.bStop == bStop
    }

    constructor (threads: nat, maxJobs: nat, blockIfFull: bool, ghost callers: nat)
      ensures Is(P.Initialized(threads, callers, maxJobs, blockIfFull)) && fresh(JobList)
    {
      JobList := new List<P.Job>();
      uNoOfStaticThreads, uNoOfJobsMax, bBlockIfFull := threads, maxJobs, blockIfFull;
      hJobAdded, hQueueOpenSemaphore, uNoOfJobs, uJobId, bStop := 0, 0, 0, 0, false;
    }

    /** The worker takes the first job, if there is one, under the list lock. */
    method FetchJob(ghost s: P.Pool) returns (job: Option<P.Job>)
      requires Is(s)
      modifies JobList, JobList.Nodes
      ensures Is(P.Fetch(s)) && job == P.First(s.jobList)
      ensures forall n :: n in JobList.Nodes ==> n in old(JobList.Nodes)
    {
      job := JobList.RemoveFirstElement();
    }

    /** The worker's timed wait when it is woken, at the instant at which it gets the permit. A wait that times out
        leaves the fields alone. */
    method TakeJobAdded(ghost s: P.Pool, ghost i: nat)
      requires Is(s) && P.Enabled(s, P.Wakes(i))
      modifies `hJobAdded
      ensures Is(P.Do(s, P.Wakes(i)))
    {
      hJobAdded := hJobAdded - 1;
    }

    /** The worker counts its finished job off. Only a job that leaves the full pool posts the permit. */
    method JobDone(ghost s: P.Pool, ghost i: nat)
      requires Is(s) && P.Enabled(s, P.Completes(i)) && P.JobsCounted(s)
      modifies `uNoOfJobs, `hQueueOpenSemaphore
      ensures Is(P.Do(s, P.Completes(i)))
    {
      // the worker's own job is counted
      P.TallyUpdate(s.workers, i, s.workers[i], P.Holding);
      if uNoOfJobs >= uNoOfJobsMax {
        uNoOfJobs := uNoOfJobs - 1;
        hQueueOpenSemaphore := P.Post(hQueueOpenSemaphore, 1, 1);
      } else {
        uNoOfJobs := uNoOfJobs - 1;
      }
    }

    /** AddJob's critical section: reserves a place and numbers the job when there is room. */
    method Reserve(ghost s: P.Pool, ghost p: nat) returns (job: Option<P.Job>)
      requires Is(s) && P.Enabled(s, P.AddsJob(p))
      modifies `uNoOfJobs, `uJobId
      ensures Is(P.Do(s, P.AddsJob(p)))
      ensures P.Do(s, P.AddsJob(p)).producers[p] ==
        match job case Some(j) => P.Reserved(j) case None => if bBlockIfFull then P.Blocked else P.Free
    {
      job := TryReserve();
    }

    /** The same after the wait for room. */
    method Recheck(ghost s: P.Pool, ghost p: nat) returns (job: Option<P.Job>)
      requires Is(s) && P.Enabled(s, P.Rechecks(p))
      modifies `uNoOfJobs, `uJobId
      ensures Is(P.Do(s, P.Rechecks(p)))
      ensures P.Do(s, P.Rechecks(p)).producers[p] == match job case Some(j) => P.Reserved(j) case None => P.Blocked
    {
      job := TryReserve();
    }

    method TryReserve() returns (job: Option<P.Job>)
      modifies `uNoOfJobs, `uJobId
      ensures job == if old(uNoOfJobs) < uNoOfJobsMax then Some(old(uJobId)) else None
      ensures uNoOfJobs == old(uNoOfJobs) + (if job.Some? then 1 else 0) && uJobId == old(uJobId) + (if job.Some? then 1 else 0)
    {
      if uNoOfJobs >= uNoOfJobsMax {
        return None;
      }
      job := Some(uJobId);
      uNoOfJobs, uJobId := uNoOfJobs + 1, uJobId + 1;
    }

    /** The caller's timed wait for room, at the instant at which it gets the permit. */
    method TakeQueueOpen(ghost s: P.Pool, ghost p: nat)
      requires Is(s) && P.Enabled(s, P.QueueOpens(p))
      modifies `hQueueOpenSemaphore
      ensures Is(P.Do(s, P.QueueOpens(p)))
    {
      hQueueOpenSemaphore := hQueueOpenSemaphore - 1;
    }

    /** The caller puts its job into the list. */
    method AppendJob(ghost s: P.Pool, ghost p: nat, job: P.Job)
      requires Is(s) && P.Enabled(s, P.Appends(p)) && s.producers[p].job == job
      modifies JobList, JobList.Nodes
      ensures Is(P.Do(s, P.Appends(p)))
      ensures forall n :: n in JobList.Nodes ==> n in old(JobList.Nodes) || fresh(n)
    {
      var _ := JobList.AddElementToEnd(Some(job));
    }

    /** The caller lets one worker wake up. */
    method PostJobAdded(ghost s: P.Pool, ghost p: nat)
      requires Is(s) && P.Enabled(s, P.Posts(p))
      modifies `hJobAdded
      ensures Is(P.Do(s, P.Posts(p)))
    {
      hJobAdded := P.Post(hJobAdded, 1, uNoOfStaticThreads);
    }

    /** Clear tells the workers to stop and wakes all of them. */
    method Stop(ghost s: P.Pool)
      requires Is(s) && P.Enabled(s, P.Stops)
      modifies `bStop, `hJobAdded
      ensures Is(P.Do(s, P.Stops))
    {
      bStop := true;
      hJobAdded := P.Post(hJobAdded, uNoOfStaticThreads, uNoOfStaticThreads);
    }
  }

  class ThreadObject {
    var ShutdownEvent: nat
    var IsRunning: bool

    /** The fields are those of the thread `t`, whatever its waiters are doing. */
    ghost predicate Is(t: T.Thread)
      reads this
    {
      t.shutdownEvent == ShutdownEvent && t.isRunning == IsRunning
    }

    constructor (ghost infinite: seq<bool>)
      ensures Is(T.Created(infinite))
    {
      ShutdownEvent, IsRunning := 1, false;
    }

    /** Takes the permit of the shutdown event before the thread runs; starting a running thread does nothing. Starting
        it while it is not running and the permit is taken does not return: the wait has no timeout. */
    method Start(ghost t: T.Thread) returns (status: Option<Status>)
      requires Is(t) && T.Inv(t)
      modifies this
      ensures status.None? <==> !old(IsRunning) && old(ShutdownEvent) == 0
      ensures status.Some? ==> status.value == Good && IsRunning
      ensures ShutdownEvent == if !old(IsRunning) && old(ShutdownEvent) > 0 then old(ShutdownEvent) - 1 else old(ShutdownEvent)
      ensures !t.main.Ended? ==> status.Some? && Is(if T.Enabled(t, T.Starts) then T.Do(t, T.Starts) else t)
    {
      if IsRunning {
        return Some(Good);
      }
      if ShutdownEvent == 0 {
        return None;
      }
      ShutdownEvent := ShutdownEvent - 1;
      IsRunning := true;
      return Some(Good);
    }

    /** After the main function has returned. */
    method End(ghost t: T.Thread)
      requires Is(t) && T.Enabled(t, T.Ends)
      modifies this
      ensures Is(T.Do(t, T.Ends))
    {
      IsRunning := false;
      ShutdownEvent := P.Post(ShutdownEvent, 1, 1);
    }

    /** WaitForShutdown up to its wait: nothing to wait for when the thread is not running. */
    method Ask(ghost t: T.Thread, ghost w: nat) returns (mustWait: bool)
      requires Is(t) && T.Enabled(t, T.Asks(w))
      ensures Is(T.Do(t, T.Asks(w)))
      ensures mustWait <==> T.Do(t, T.Asks(w)).waiters[w].Blocked?
    {
      mustWait := IsRunning;
    }

    /** The wait, when it is woken by the shutdown event. */
    method Wake(ghost t: T.Thread, ghost w: nat)
      requires Is(t) && T.Enabled(t, T.Wakes(w))
      modifies `ShutdownEvent
      ensures Is(T.Do(t, T.Wakes(w)))
    {
      ShutdownEvent := ShutdownEvent - 1;
    }

    /** WaitForShutdown after its wait: releases the event again for the other waiters. */
    method Finish(ghost t: T.Thread, ghost w: nat) returns (status: Status)
      requires Is(t) && T.Enabled(t, T.Finishes(w))
      modifies `ShutdownEvent
      ensures Is(T.Do(t, T.Finishes(w)))
      ensures T.Do(t, T.Finishes(w)).waiters[w] == T.Done(status, true)
    {
      if !IsRunning {
        ShutdownEvent := P.Post(ShutdownEvent, 1, 1);
        return Good;
      }
      return GoodNonCriticalTimeout;
    }
  }

  // ----- the critical sections strung together -----

  /** A pool object with its worker threads and callers, each at its place in the code. Whichever of them moves next,
      what it does next follows from that place and from what the methods of the pool object return to it. */
  class Machine {
    const Object: ThreadPool
    var Workers: seq<P.Worker>
    var Callers: seq<P.Producer>
    ghost var Value: P.Pool

    ghost predicate Valid()
      reads this, Object, Object.JobList, Object.JobList.Nodes
    {
      && Object.Is(Value) && P.JobsCounted(Value)
      && Workers == Value.workers && Callers == Value.producers && |Value.late| == |Workers|
    }

    constructor (threads: nat, callers: nat, maxJobs: nat, blockIfFull: bool)
      ensures Valid() && Value == P.Initialized(threads, callers, maxJobs, blockIfFull)
      ensures fresh(Object) && fresh(Object.JobList)
    {
      Object := new ThreadPool(threads, maxJobs, blockIfFull, callers);
      Workers, Callers := seq(threads, _ => P.Starting), seq(callers, _ => P.Free);
      Value := P.Initialized(threads, callers, maxJobs, blockIfFull);
      new;
      P.InitializedInv(threads, callers, maxJobs, blockIfFull);
    }

    predicate Fetching(step: P.Step) {
      step.WorkerStarts? || step.Fetches? || step.Refetches?
    }

    /** A worker fetches: before its loop, after it was woken, and after each job. */
    method Fetch(step: P.Step)
      requires Valid() && P.Enabled(Value, step) && Fetching(step)
      modifies this, Object, Object.JobList, Object.JobList.Nodes
      ensures Valid() && Value == P.Do(old(Value), step)
      ensures forall i :: 0 <= i < |Object.JobList.Nodes| ==>
        Object.JobList.Nodes[i] in old(Object.JobList.Nodes) || fresh(Object.JobList.Nodes[i])
    {
      hide P.JobsCounted, Linked, Stored;
      P.WorkerStepJobs(Value, step);
      var i := step.i;
      var job := Object.FetchJob(Value);
      if Workers[i] == P.Woken {
        Workers := Workers[i := if job.Some? then P.Running(job.value) else P.Refetching];
      } else {
        Workers := Workers[i := P.Testing(job)];
      }
      Value := P.Do(Value, step);
    }

    /** The other moves of a worker: the test of its loop, the wait, and the end of a job. */
    method MoveWorker(step: P.Step)
      requires Valid() && P.Enabled(Value, step) && P.WorkerStep(step) && !Fetching(step)
      modifies this, Object
      ensures Valid() && Value == P.Do(old(Value), step)
    {
      hide P.JobsCounted, Linked, Stored;
      P.WorkerStepJobs(Value, step);
      var i := step.i;
      if Workers[i].Testing? {
        var job := Workers[i].job;
        Workers := Workers[i := if Object.bStop then P.Exited(job) else if job.None? then P.Waiting else P.Running(job.value)];
      } else if Workers[i].Running? {
        Object.JobDone(Value, i);
        Workers := Workers[i := P.Refetching];
      } else if step.Wakes? {
        Object.TakeJobAdded(Value, i);
        Workers := Workers[i := P.Woken];
      } else {
        Workers := Workers[i := P.Testing(None)];
      }
      Value := P.Do(Value, step);
    }

    /** A caller of AddJob puts its job into the list. */
    method Append(p: nat)
      requires Valid() && P.Enabled(Value, P.Appends(p))
      modifies this, Object.JobList, Object.JobList.Nodes
      ensures Valid() && Value == P.Do(old(Value), P.Appends(p))
      ensures forall i :: 0 <= i < |Object.JobList.Nodes| ==>
        Object.JobList.Nodes[i] in old(Object.JobList.Nodes) || fresh(Object.JobList.Nodes[i])
    {
      hide P.JobsCounted, Linked, Stored;
      CallerKeepsCount(P.Appends(p));
      Object.AppendJob(Value, p, Callers[p].job);
      Callers := Callers[p := P.Appended];
      Value := P.Do(Value, P.Appends(p));
    }

    /** The other moves of a caller of AddJob, and the stop by Clear. */
    method MoveCaller(step: P.Step)
      requires Valid() && P.Enabled(Value, step) && !P.WorkerStep(step) && !step.Appends?
      modifies this, Object
      ensures Valid() && Value == P.Do(old(Value), step)
    {
      hide P.JobsCounted, Linked, Stored;
      CallerKeepsCount(step);
      match step {
        case AddsJob(p) =>
          var job := Object.Reserve(Value, p);
          Callers := Callers[p := if job.Some? then P.Reserved(job.value) else if Object.bBlockIfFull then P.Blocked else P.Free];
        case QueueOpens(p) =>
          Object.TakeQueueOpen(Value, p);
          Callers := Callers[p := P.Rechecking];
        case GivesUp(p) =>
          Callers := Callers[p := P.Free];
        case Rechecks(p) =>
          var job := Object.Recheck(Value, p);
          Callers := Callers[p := if job.Some? then P.Reserved(job.value) else P.Blocked];
        case Posts(p) =>
          Object.PostJobAdded(Value, p);
          Callers := Callers[p := P.Free];
        case Stops =>
          Object.Stop(Value);
      }
      Value := P.Do(Value, step);
    }

    lemma CallerKeepsCount(step: P.Step)
      requires P.JobsCounted(Value) && P.Enabled(Value, step) && !P.WorkerStep(step)
      ensures P.JobsCounted(P.Do(Value, step))
    {
      if !step.Stops? { P.ProducerStepJobs(Value, step); }
    }

    /** Any schedule of the threads: the objects in the heap go through exactly the states of the step system, so what
        is proved of its runs is true of them. */
    method Execute(schedule: seq<P.Step>)
      requires Valid() && P.Possible(Value, schedule)
      modifies this, Object, Object.JobList, Object.JobList.Nodes
      ensures Valid() && Value == P.Run(old(Value), schedule)
    {
      hide P.Do, P.Enabled, P.JobsCounted, Linked, Stored;
      ghost var nodes := Object.JobList.Nodes;
      var k := 0;
      while k < |schedule|
        invariant k <= |schedule| && Valid()
        invariant P.Possible(Value, schedule[k..]) && P.Run(Value, schedule[k..]) == P.Run(old(Value), schedule)
        invariant forall i :: 0 <= i < |Object.JobList.Nodes| ==> Object.JobList.Nodes[i] in nodes || fresh(Object.JobList.Nodes[i])
      {
        assert schedule[k..][0] == schedule[k] && schedule[k..][1..] == schedule[k + 1..];
        if Fetching(schedule[k]) {
          Fetch(schedule[k]);
        } else if schedule[k].Appends? {
          Append(schedule[k].p);
        } else if P.WorkerStep(schedule[k]) {
          MoveWorker(schedule[k]);
        } else {
          MoveCaller(schedule[k]);
        }
        k := k + 1;
      }
    }
  }
}
