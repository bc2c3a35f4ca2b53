/**
 When can a caller of AddJob be left waiting although the pool has room? The worker loop
 (Stack/core/opcua_threadpool.c) posts hQueueOpenSemaphore only when a job leaves the full pool.
 */
module Stranding {
  import opened Basics
  import opened ThreadPools

  lemma {:induction false} RunSnoc(s: Pool, steps: seq<Step>, step: Step)
    requires Possible(s, steps) && Enabled(Run(s, steps), step)
    ensures Possible(s, steps + [step]) && Run(s, steps + [step]) == Do(Run(s, steps), step)
    decreases |steps|
  {
    hide Do, Enabled;
    if steps == [] {
      assert [] + [step] == [step] && [step][1..] == [];
      assert Possible(Do(s, step), []);
      assert Run(Do(s, step), []) == Do(s, step);
    } else {
      RunSnoc(Do(s, steps[0]), steps[1..], step);
      assert (steps + [step])[1..] == steps[1..] + [step];
    }
  }

  /** With one caller, or room for one job only, no caller is stranded in any run. */
  lemma NarrowNeverStrands(threads: nat, callers: nat, maxJobs: nat, blockIfFull: bool, steps: seq<Step>)
    requires callers <= 1 || maxJobs <= 1
    requires Possible(Initialized(threads, callers, maxJobs, blockIfFull), steps)
    ensures !Stranded(Run(Initialized(threads, callers, maxJobs, blockIfFull), steps))
  {
    hide Stranded;
    RunFromStart(threads, callers, maxJobs, blockIfFull, steps);
    MaxIsConstant(Initialized(threads, callers, maxJobs, blockIfFull), steps);
  }

  /** The first two callers and the first worker of a pool, and how full it is. */
  predicate Scene(s: Pool, first: Producer, second: Producer, worker: Worker, jobs: nat, permits: nat) {
    && |s.producers| >= 2 && |s.workers| == |s.late| >= 1
    && s.producers[0] == first && s.producers[1] == second
    && (forall p :: 2 <= p < |s.producers| ==> s.producers[p].Free?)
    && s.workers[0] == worker
    && s.uNoOfJobs == jobs && s.hQueueOpen == permits
    && s.uNoOfJobsMax >= 2 && s.bBlockIfFull && !s.bStop
  }

  /** The first caller adds jobs until the pool is full, while no worker moves. */
  lemma {:induction false} FillsUp(threads: nat, callers: nat, maxJobs: nat, k: nat) returns (steps: seq<Step>)
    requires threads >= 1 && callers >= 2 && maxJobs >= 2 && k <= maxJobs
    ensures Possible(Initialized(threads, callers, maxJobs, true), steps)
    ensures var s := Run(Initialized(threads, callers, maxJobs, true), steps);
      Scene(s, Free, Free, Starting, k, 0) && |s.jobList| == k && s.uNoOfJobsMax == maxJobs
  {
    var s0 := Initialized(threads, callers, maxJobs, true);
    if k == 0 {
      steps := [];
    } else {
      var before := FillsUp(threads, callers, maxJobs, k - 1);
      steps := Extend(s0, before, AddsJob(0));
      steps := Extend(s0, steps, Appends(0));
      steps := Extend(s0, steps, Posts(0));
    }
  }

  lemma Extend(s: Pool, steps: seq<Step>, step: Step) returns (more: seq<Step>)
    requires Possible(s, steps) && Enabled(Run(s, steps), step)
    ensures Possible(s, more) && Run(s, more) == Do(Run(s, steps), step)
  {
    RunSnoc(s, steps, step);
    more := steps + [step];
  }

  /** Two callers find the pool full and wait. */
  lemma TwoWait(s: Pool, steps: seq<Step>) returns (more: seq<Step>)
    requires Possible(s, steps) && Scene(Run(s, steps), Free, Free, Starting, Run(s, steps).uNoOfJobsMax, 0)
    ensures Possible(s, more)
    ensures Scene(Run(s, more), Blocked, Blocked, Starting, Run(s, steps).uNoOfJobsMax, 0)
    ensures Run(s, more).jobList == Run(s, steps).jobList && Run(s, more).uNoOfJobsMax == Run(s, steps).uNoOfJobsMax
  {
    hide Run, Possible;
    more := Extend(s, steps, AddsJob(0));
    more := Extend(s, more, AddsJob(1));
  }

  /** The first worker runs a job: only leaving the full pool posts a permit. */
  lemma RunsOne(s: Pool, steps: seq<Step>, job: Job, jobs: nat, permits: nat) returns (more: seq<Step>)
    requires Possible(s, steps) && jobs >= 1 && permits <= 1
    requires Scene(Run(s, steps), Blocked, Blocked, Testing(Some(job)), jobs, permits)
    ensures Possible(s, more)
    ensures Scene(Run(s, more), Blocked, Blocked, Refetching, jobs - 1, if jobs >= Run(s, steps).uNoOfJobsMax then 1 else permits)
    ensures Run(s, more).jobList == Run(s, steps).jobList && Run(s, more).uNoOfJobsMax == Run(s, steps).uNoOfJobsMax
  {
    hide Run, Possible;
    more := Extend(s, steps, Tests(0));
    more := Extend(s, more, Completes(0));
  }

  /** Two jobs leave the full pool, one permit is posted, and one of the two waiting callers uses it. */
  lemma TwoLeave(s: Pool, steps: seq<Step>, maxJobs: nat) returns (more: seq<Step>)
    requires Possible(s, steps) && Scene(Run(s, steps), Blocked, Blocked, Starting, maxJobs, 0)
    requires |Run(s, steps).jobList| >= 2 && Run(s, steps).uNoOfJobsMax == maxJobs
    ensures Possible(s, more) && Stranded(Run(s, more))
  {
    hide Run, Possible, Stranded;
    var jobs := Run(s, steps).jobList;
    more := Extend(s, steps, WorkerStarts(0));
    more := RunsOne(s, more, jobs[0], maxJobs, 0);
    more := Extend(s, more, Refetches(0));
    more := RunsOne(s, more, jobs[1], maxJobs - 1, 1);
    more := Extend(s, more, QueueOpens(0));
    more := Extend(s, more, Rechecks(0));
    SecondIsStranded(Run(s, more));
  }

  lemma SecondIsStranded(s: Pool)
    requires |s.producers| >= 2 && s.producers[1] == Blocked && s.uNoOfJobs < s.uNoOfJobsMax && s.hQueueOpen == 0
    requires forall p :: 0 <= p < |s.producers| ==> s.producers[p] != Rechecking
    ensures Stranded(s)
  {
  }

  /** In a blocking pool with at least one worker, no run strands a caller if and only if there is only
      one caller or room for only one job. */
  lemma StrandsExactlyWhen(threads: nat, callers: nat, maxJobs: nat)
    requires threads >= 1
    ensures (forall steps :: Possible(Initialized(threads, callers, maxJobs, true), steps) ==>
                !Stranded(Run(Initialized(threads, callers, maxJobs, true), steps)))
      <==> callers <= 1 || maxJobs <= 1
  {
    hide Stranded;
    var s := Initialized(threads, callers, maxJobs, true);
    if callers <= 1 || maxJobs <= 1 {
      forall steps | Possible(s, steps)
        ensures !Stranded(Run(s, steps))
      {
        NarrowNeverStrands(threads, callers, maxJobs, true, steps);
      }
    } else {
      var steps := FillsUp(threads, callers, maxJobs, maxJobs);
      steps := TwoWait(s, steps);
      steps := TwoLeave(s, steps, maxJobs);
      assert Possible(s, steps) && Stranded(Run(s, steps));
    }
  }
}
