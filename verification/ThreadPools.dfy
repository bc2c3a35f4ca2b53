/**
 The thread pool of Stack/core/opcua_threadpool.c in its configuration without dynamic threads: the
 workers, the callers of AddJob, two bounded semaphores, the mutex and the job list. Each critical
 section of the mutex or of the list lock and each semaphore operation is one step.
 */
module ThreadPools {
  import opened Basics

  /** Jobs are numbered in the order in which AddJob creates them. */
  type Job = nat

  datatype Worker =
    | Starting
    /** Before the test of bStop at the head of the loop, with the job fetched so far. */
    | Testing(job: Option<Job>)
    /** In the timed wait on hJobAdded. */
    | Waiting
    /** Woken by hJobAdded, the job not fetched yet. */
    | Woken
    | Running(current: Job)
    | Refetching
    | Exited(unstarted: Option<Job>)

  /** A thread that calls AddJob. */
  datatype Producer =
    | Free
    /** In the timed wait on hQueueOpenSemaphore. */
    | Blocked
    | Rechecking
    /** The job is counted, but not in the list yet. */
    | Reserved(job: Job)
    /** The job is in the list, hJobAdded is not posted yet. */
    | Appended

  datatype Pool = Pool(
    workers: seq<Worker>,
    producers: seq<Producer>,
    hJobAdded: nat,
    hQueueOpen: nat,
    uNoOfJobs: nat,
    uNoOfJobsMax: nat,
    bBlockIfFull: bool,
    jobList: seq<Job>,
    bStop: bool,
    uJobId: nat,
    /** The jobs that were put into the list, taken out of it, and started, in that order each. */
    appended: seq<Job>,
    fetched: seq<Job>,
    started: seq<Job>,
    /** How many jobs each worker started after the pool was told to stop. */
    late: seq<nat>)

  datatype Step =
    | WorkerStarts(i: nat)
    | Tests(i: nat)
    | Wakes(i: nat)
    | TimesOut(i: nat)
    | Fetches(i: nat)
    | Completes(i: nat)
    | Refetches(i: nat)
    | AddsJob(p: nat)
    | QueueOpens(p: nat)
    | GivesUp(p: nat)
    | Rechecks(p: nat)
    | Appends(p: nat)
    | Posts(p: nat)
    | Stops

  predicate WorkerIs(s: Pool, i: nat) {
    i < |s.workers| && i < |s.late|
  }

  predicate Enabled(s: Pool, step: Step) {
    match step
    case WorkerStarts(i) => WorkerIs(s, i) && s.workers[i].Starting?
    case Tests(i) => WorkerIs(s, i) && s.workers[i].Testing?
    case Wakes(i) => WorkerIs(s, i) && s.workers[i].Waiting? && s.hJobAdded > 0
    case TimesOut(i) => WorkerIs(s, i) && s.workers[i].Waiting?
    case Fetches(i) => WorkerIs(s, i) && s.workers[i].Woken?
    case Completes(i) => WorkerIs(s, i) && s.workers[i].Running?
    case Refetches(i) => WorkerIs(s, i) && s.workers[i].Refetching?
    case AddsJob(p) => p < |s.producers| && s.producers[p].Free? && !s.bStop
    case QueueOpens(p) => p < |s.producers| && s.producers[p].Blocked? && s.hQueueOpen > 0
    case GivesUp(p) => p < |s.producers| && s.producers[p].Blocked?
    case Rechecks(p) => p < |s.producers| && s.producers[p].Rechecking?
    case Appends(p) => p < |s.producers| && s.producers[p].Reserved?
    case Posts(p) => p < |s.producers| && s.producers[p].Appended?
    case Stops => !s.bStop && forall p :: 0 <= p < |s.producers| ==> s.producers[p].Free?
  }

  function First(jobs: seq<Job>): Option<Job> {
    if jobs == [] then None else Some(jobs[0])
  }

  /** Takes the first job, if any, out of the list. */
  function Fetch(s: Pool): Pool {
    if s.jobList == [] then s
    else s.(jobList := s.jobList[1..], fetched := s.fetched + [s.jobList[0]])
  }

  /** Worker `i` starts the job. */
  function Start(s: Pool, i: nat, job: Job): Pool
    requires WorkerIs(s, i)
  {
    s.(workers := s.workers[i := Running(job)], started := s.started + [job],
       late := if s.bStop then s.late[i := s.late[i] + 1] else s.late)
  }

  /** A post on a semaphore that has reached its maximum has no effect. */
  function Post(value: nat, count: nat, max: nat): nat {
    if value + count < max then value + count else max
  }

  /** AddJob while it holds the mutex and there is room. */
  function Reserve(s: Pool, p: nat): Pool
    requires p < |s.producers|
  {
    s.(uNoOfJobs := s.uNoOfJobs + 1, uJobId := s.uJobId + 1, producers := s.producers[p := Reserved(s.uJobId)])
  }

  function Do(s: Pool, step: Step): Pool
    requires Enabled(s, step)
  {
    match step
    case WorkerStarts(i) => Fetch(s).(workers := s.workers[i := Testing(First(s.jobList))])
    case Tests(i) =>
      var job := s.workers[i].job;
      if s.bStop then s.(workers := s.workers[i := Exited(job)])
      else if job.None? then s.(workers := s.workers[i := Waiting])
      else Start(s, i, job.value)
    case Wakes(i) => s.(workers := s.workers[i := Woken], hJobAdded := s.hJobAdded - 1)
    case TimesOut(i) => s.(workers := s.workers[i := Testing(None)])
    case Fetches(i) =>
      if s.jobList == [] then s.(workers := s.workers[i := Refetching])
      else Start(Fetch(s), i, s.jobList[0])
    case Completes(i) =>
      s.(workers := s.workers[i := Refetching],
         uNoOfJobs := if s.uNoOfJobs > 0 then s.uNoOfJobs - 1 else 0,
         hQueueOpen := if s.uNoOfJobs >= s.uNoOfJobsMax then Post(s.hQueueOpen, 1, 1) else s.hQueueOpen)
    case Refetches(i) => Fetch(s).(workers := s.workers[i := Testing(First(s.jobList))])
    case AddsJob(p) =>
      if s.uNoOfJobs < s.uNoOfJobsMax then Reserve(s, p)
      else if s.bBlockIfFull then s.(producers := s.producers[p := Blocked])
      else s
    case QueueOpens(p) => s.(producers := s.producers[p := Rechecking], hQueueOpen := s.hQueueOpen - 1)
    case GivesUp(p) => s.(producers := s.producers[p := Free])
    case Rechecks(p) => if s.uNoOfJobs >= s.uNoOfJobsMax then s.(producers := s.producers[p := Blocked]) else Reserve(s, p)
    case Appends(p) =>
      var job := s.producers[p].job;
      s.(producers := s.producers[p := Appended], jobList := s.jobList + [job], appended := s.appended + [job])
    case Posts(p) => s.(producers := s.producers[p := Free], hJobAdded := Post(s.hJobAdded, 1, |s.workers|))
    case Stops => s.(bStop := true, hJobAdded := Post(s.hJobAdded, |s.workers|, |s.workers|))
  }

  predicate Possible(s: Pool, steps: seq<Step>)
    decreases |steps|
  {
    steps == [] || (Enabled(s, steps[0]) && Possible(Do(s, steps[0]), steps[1..]))
  }

  function Run(s: Pool, steps: seq<Step>): Pool
    requires Possible(s, steps)
    decreases |steps|
  {
    if steps == [] then s else Run(Do(s, steps[0]), steps[1..])
  }

  /** A pool as Initialize leaves it. The threads have been started and have not taken a step. */
  function Initialized(threads: nat, callers: nat, maxJobs: nat, blockIfFull: bool): Pool {
    Pool(seq(threads, _ => Starting), seq(callers, _ => Free), 0, 0, 0, maxJobs, blockIfFull, [], false, 0, [], [], [], seq(threads, _ => 0))
  }

  // ----- counting workers and producers -----

  datatype Measure = Idle | Asleep | Roused | Holding | Abandoned | Unstarted(job: Job)

  /** What a worker contributes: it is idle, waits, was woken and has yet to fetch, holds a job, or left one behind. */
  function Weight(w: Worker, m: Measure): nat {
    match m
    case Idle => if w.Waiting? || w == Testing(None) then 1 else 0
    case Asleep => if w.Waiting? then 1 else 0
    case Roused => if w.Woken? then 1 else 0
    case Holding => if w.Running? || (w.Testing? && w.job.Some?) then 1 else 0
    case Abandoned => if w.Exited? && w.unstarted.Some? then 1 else 0
    case Unstarted(job) => if w == Testing(Some(job)) || w == Exited(Some(job)) then 1 else 0
  }

  function Tally(ws: seq<Worker>, m: Measure): nat {
    if ws == [] then 0 else Tally(ws[..|ws| - 1], m) + Weight(ws[|ws| - 1], m)
  }

  lemma {:induction false} TallyUpdate(ws: seq<Worker>, i: nat, w: Worker, m: Measure)
    requires i < |ws|
    ensures Tally(ws[i := w], m) == Tally(ws, m) - Weight(ws[i], m) + Weight(w, m)
    ensures Tally(ws, m) >= Weight(ws[i], m)
  {
    var last := |ws| - 1;
    if i == last {
      assert ws[i := w][..last] == ws[..last];
    } else {
      TallyUpdate(ws[..last], i, w, m);
      assert ws[i := w][..last] == ws[..last][i := w];
    }
  }

  lemma {:induction false} TallyBound(ws: seq<Worker>, m: Measure)
    ensures Tally(ws, m) <= |ws|
  {
    if ws != [] { TallyBound(ws[..|ws| - 1], m); }
  }

  datatype Load = AnyReserved | AnyAppended | ReservedJob(job: Job)

  function Share(p: Producer, l: Load): nat {
    match l
    case AnyReserved => if p.Reserved? then 1 else 0
    case AnyAppended => if p.Appended? then 1 else 0
    case ReservedJob(job) => if p == Reserved(job) then 1 else 0
  }

  function Total(ps: seq<Producer>, l: Load): nat {
    if ps == [] then 0 else Total(ps[..|ps| - 1], l) + Share(ps[|ps| - 1], l)
  }

  lemma {:induction false} TotalUpdate(ps: seq<Producer>, i: nat, p: Producer, l: Load)
    requires i < |ps|
    ensures Total(ps[i := p], l) == Total(ps, l) - Share(ps[i], l) + Share(p, l)
    ensures Total(ps, l) >= Share(ps[i], l)
  {
    var last := |ps| - 1;
    if i == last {
      assert ps[i := p][..last] == ps[..last];
    } else {
      TotalUpdate(ps[..last], i, p, l);
      assert ps[i := p][..last] == ps[..last][i := p];
    }
  }

  // ----- invariants -----

  function Min(a: int, b: int): int {
    if a < b then a else b
  }

  /** Enough wakeups are stored or on their way for the queued jobs that no woken worker will fetch,
      or for all idle workers. */
  predicate Wakeups(s: Pool) {
    && s.hJobAdded <= |s.workers|
    && s.hJobAdded + Total(s.producers, AnyAppended) >=
         Min(|s.jobList| - Tally(s.workers, Roused), Tally(s.workers, Idle))
  }

  /** Every counted job is reserved, queued, held by a worker, or left behind by one that exited. */
  predicate JobsCounted(s: Pool) {
    && s.uNoOfJobs == Total(s.producers, AnyReserved) + |s.jobList| + Tally(s.workers, Holding) + Tally(s.workers, Abandoned)
    && s.uNoOfJobs <= s.uNoOfJobsMax
  }

  /** Jobs leave the list in the order in which they came. */
  predicate InOrder(s: Pool) {
    s.fetched + s.jobList == s.appended
  }

  /** Each job number below the counter was given out once; each fetched job is started once, or its worker still has it. */
  ghost predicate OnceEach(s: Pool) {
    && (forall j: Job :: multiset(s.appended)[j] + Total(s.producers, ReservedJob(j)) == if j < s.uJobId then 1 else 0)
    && (forall j: Job :: multiset(s.started)[j] + Tally(s.workers, Unstarted(j)) == multiset(s.fetched)[j])
  }

  /** How many jobs a worker can still start once the pool was told to stop. */
  function StillStarts(w: Worker): nat {
    if w.Waiting? || w.Woken? then 1 else 0
  }

  predicate Stopping(s: Pool) {
    && |s.late| == |s.workers|
    && (forall i :: 0 <= i < |s.workers| ==>
          if s.bStop then s.late[i] + StillStarts(s.workers[i]) <= 1 else s.late[i] == 0 && !s.workers[i].Exited?)
    && (s.bStop ==> forall p :: 0 <= p < |s.producers| ==> s.producers[p].Free?)
  }

  predicate AnyProducer(s: Pool, b: Producer) {
    exists p :: 0 <= p < |s.producers| && s.producers[p] == b
  }

  /** A caller of AddJob waits although there is room, and no permit is stored or being used. */
  predicate Stranded(s: Pool) {
    && AnyProducer(s, Blocked) && !AnyProducer(s, Rechecking)
    && s.uNoOfJobs < s.uNoOfJobsMax && s.hQueueOpen == 0
  }

  predicate Narrow(s: Pool) {
    |s.producers| <= 1 || s.uNoOfJobsMax <= 1
  }

  predicate WorkerStep(step: Step) {
    step.WorkerStarts? || step.Tests? || step.Wakes? || step.TimesOut? || step.Fetches? || step.Completes? || step.Refetches?
  }

  lemma WorkerStepWakeups(s: Pool, step: Step)
    requires Enabled(s, step) && WorkerStep(step) && Wakeups(s) && !s.bStop
    ensures Wakeups(Do(s, step))
  {
    hide Tally, Total;
    var t, i := Do(s, step), step.i;
    TallyUpdate(s.workers, i, t.workers[i], Roused);
    TallyUpdate(s.workers, i, t.workers[i], Idle);
    assert t.workers == s.workers[i := t.workers[i]];
  }

  lemma ProducerStepWakeups(s: Pool, step: Step)
    requires Enabled(s, step) && !WorkerStep(step) && !step.Stops? && Wakeups(s)
    ensures Wakeups(Do(s, step))
  {
    hide Tally, Total;
    var t, p := Do(s, step), step.p;
    TotalUpdate(s.producers, p, t.producers[p], AnyAppended);
    assert t.producers == s.producers[p := t.producers[p]];
    TallyBound(s.workers, Idle);
  }

  lemma WorkerStepJobs(s: Pool, step: Step)
    requires Enabled(s, step) && WorkerStep(step) && JobsCounted(s)
    ensures JobsCounted(Do(s, step))
  {
    hide Tally, Total;
    var t, i := Do(s, step), step.i;
    TallyUpdate(s.workers, i, t.workers[i], Holding);
    TallyUpdate(s.workers, i, t.workers[i], Abandoned);
    assert t.workers == s.workers[i := t.workers[i]];
  }

  lemma ProducerStepJobs(s: Pool, step: Step)
    requires Enabled(s, step) && !WorkerStep(step) && !step.Stops? && JobsCounted(s)
    ensures JobsCounted(Do(s, step))
  {
    hide Tally, Total;
    var t, p := Do(s, step), step.p;
    TotalUpdate(s.producers, p, t.producers[p], AnyReserved);
    assert t.producers == s.producers[p := t.producers[p]];
  }

  lemma StepInOrder(s: Pool, step: Step)
    requires Enabled(s, step) && InOrder(s)
    ensures InOrder(Do(s, step))
  {
    if s.jobList != [] {
      assert s.jobList == [s.jobList[0]] + s.jobList[1..];
      ConcatAssoc(s.fetched, [s.jobList[0]], s.jobList[1..]);
    }
    if step.Appends? {
      ConcatAssoc(s.fetched, s.jobList, [s.producers[step.p].job]);
    }
  }

  lemma SnocCount(s: seq<Job>, x: Job, j: Job)
    ensures multiset(s + [x])[j] == multiset(s)[j] + if x == j then 1 else 0
  {
  }

  /** Taking the first job moves its number from the list to whoever fetched it. */
  lemma FetchCounts(s: Pool, j: Job)
    ensures multiset(Fetch(s).fetched)[j] == multiset(s.fetched)[j] + if First(s.jobList) == Some(j) then 1 else 0
  {
    if s.jobList != [] { SnocCount(s.fetched, s.jobList[0], j); }
  }

  lemma StartCounts(s: Pool, i: nat, job: Job, j: Job)
    requires WorkerIs(s, i)
    ensures multiset(Start(s, i, job).started)[j] == multiset(s.started)[j] + if job == j then 1 else 0
  {
    SnocCount(s.started, job, j);
  }

  lemma TallyStep(s: Pool, step: Step, m: Measure)
    requires Enabled(s, step) && WorkerStep(step)
    ensures var t := Do(s, step);
      Tally(t.workers, m) == Tally(s.workers, m) - Weight(s.workers[step.i], m) + Weight(t.workers[step.i], m)
  {
    hide Tally, Weight;
    var t, i := Do(s, step), step.i;
    assert t.workers == s.workers[i := t.workers[i]];
    TallyUpdate(s.workers, i, t.workers[i], m);
  }

  predicate StartsNow(s: Pool, step: Step, j: Job)
    requires Enabled(s, step)
  {
    || (step.Tests? && !s.bStop && s.workers[step.i].job == Some(j))
    || (step.Fetches? && First(s.jobList) == Some(j))
  }

  predicate FetchesNow(s: Pool, step: Step, j: Job) {
    (step.WorkerStarts? || step.Refetches? || step.Fetches?) && First(s.jobList) == Some(j)
  }

  lemma StartedStep(s: Pool, step: Step, j: Job)
    requires Enabled(s, step) && WorkerStep(step)
    ensures multiset(Do(s, step).started)[j] == multiset(s.started)[j] + if StartsNow(s, step, j) then 1 else 0
  {
    if step.Tests? && s.workers[step.i].job.Some? {
      StartCounts(s, step.i, s.workers[step.i].job.value, j);
    }
    if step.Fetches? && s.jobList != [] {
      StartCounts(Fetch(s), step.i, s.jobList[0], j);
    }
  }

  lemma FetchedStep(s: Pool, step: Step, j: Job)
    requires Enabled(s, step) && WorkerStep(step)
    ensures multiset(Do(s, step).fetched)[j] == multiset(s.fetched)[j] + if FetchesNow(s, step, j) then 1 else 0
  {
    FetchCounts(s, j);
  }

  lemma HeldStep(s: Pool, step: Step, j: Job)
    requires Enabled(s, step) && WorkerStep(step)
    ensures Weight(Do(s, step).workers[step.i], Unstarted(j)) - Weight(s.workers[step.i], Unstarted(j)) ==
      (if FetchesNow(s, step, j) then 1 else 0) - (if StartsNow(s, step, j) then 1 else 0)
  {
  }

  /** A job number is fetched, handed over and started as one and the same. */
  lemma WorkerStepUnstarted(s: Pool, step: Step, j: Job)
    requires Enabled(s, step) && WorkerStep(step)
    requires multiset(s.started)[j] + Tally(s.workers, Unstarted(j)) == multiset(s.fetched)[j]
    ensures var t := Do(s, step); multiset(t.started)[j] + Tally(t.workers, Unstarted(j)) == multiset(t.fetched)[j]
  {
    hide Tally, Weight, FetchesNow, StartsNow;
    TallyStep(s, step, Unstarted(j));
    StartedStep(s, step, j);
    FetchedStep(s, step, j);
    HeldStep(s, step, j);
  }

  lemma WorkerStepLeaves(s: Pool, step: Step)
    requires Enabled(s, step) && WorkerStep(step)
    ensures var t := Do(s, step); t.producers == s.producers && t.appended == s.appended && t.uJobId == s.uJobId
  {
  }

  lemma WorkerStepOnce(s: Pool, step: Step)
    requires Enabled(s, step) && WorkerStep(step) && OnceEach(s)
    ensures OnceEach(Do(s, step))
  {
    hide Tally, Total, Do, Enabled, WorkerStep;
    var t := Do(s, step);
    WorkerStepLeaves(s, step);
    forall j: Job
      ensures multiset(t.started)[j] + Tally(t.workers, Unstarted(j)) == multiset(t.fetched)[j]
    {
      assert multiset(s.started)[j] + Tally(s.workers, Unstarted(j)) == multiset(s.fetched)[j];
      WorkerStepUnstarted(s, step, j);
    }
  }

  lemma ProducerStepIssued(s: Pool, step: Step, j: Job)
    requires Enabled(s, step) && !WorkerStep(step) && !step.Stops?
    requires multiset(s.appended)[j] + Total(s.producers, ReservedJob(j)) == if j < s.uJobId then 1 else 0
    ensures var t := Do(s, step); multiset(t.appended)[j] + Total(t.producers, ReservedJob(j)) == if j < t.uJobId then 1 else 0
  {
    hide Total;
    var t, p := Do(s, step), step.p;
    assert t.producers == s.producers[p := t.producers[p]];
    TotalUpdate(s.producers, p, t.producers[p], ReservedJob(j));
    if step.Appends? {
      SnocCount(s.appended, s.producers[p].job, j);
    }
  }

  lemma ProducerStepLeaves(s: Pool, step: Step)
    requires Enabled(s, step) && !WorkerStep(step) && !step.Stops?
    ensures var t := Do(s, step); t.workers == s.workers && t.started == s.started && t.fetched == s.fetched
  {
  }

  lemma ProducerStepOnce(s: Pool, step: Step)
    requires Enabled(s, step) && !WorkerStep(step) && !step.Stops? && OnceEach(s)
    ensures OnceEach(Do(s, step))
  {
    hide Tally, Total, Do, Enabled, WorkerStep;
    var t := Do(s, step);
    ProducerStepLeaves(s, step);
    forall j: Job
      ensures multiset(t.appended)[j] + Total(t.producers, ReservedJob(j)) == if j < t.uJobId then 1 else 0
    {
      assert multiset(s.appended)[j] + Total(s.producers, ReservedJob(j)) == if j < s.uJobId then 1 else 0;
      ProducerStepIssued(s, step, j);
    }
  }

  lemma WorkerStepStopping(s: Pool, step: Step)
    requires Enabled(s, step) && WorkerStep(step) && Stopping(s)
    ensures Stopping(Do(s, step))
  {
    var t, i := Do(s, step), step.i;
    assert t.producers == s.producers && t.bStop == s.bStop;
    assert t.workers == s.workers[i := t.workers[i]];
    assert t.late == s.late[i := t.late[i]];
    assert if s.bStop then t.late[i] + StillStarts(t.workers[i]) <= 1 else t.late[i] == 0 && !t.workers[i].Exited?;
    hide Do;
  }

  lemma StepStopping(s: Pool, step: Step)
    requires Enabled(s, step) && Stopping(s)
    ensures Stopping(Do(s, step))
  {
    if WorkerStep(step) { WorkerStepStopping(s, step); }
  }

  /** The post when a job leaves the full pool is enough for one waiting caller, and with room for only
      one job each other waiting caller soon finds the pool full again. */
  lemma StepNotStranded(s: Pool, step: Step)
    requires Enabled(s, step) && Narrow(s) && !Stranded(s)
    ensures !Stranded(Do(s, step))
  {
    var t := Do(s, step);
    if WorkerStep(step) || step.Stops? {
      assert t.producers == s.producers;
    } else {
      ProducersAfter(s, t, step.p);
      assert t.producers[step.p] == Rechecking ==> AnyProducer(t, Rechecking);
    }
  }

  /** One producer moved: the others that wait or recheck still do. */
  lemma ProducersAfter(s: Pool, t: Pool, p: nat)
    requires p < |s.producers| == |t.producers| && t.producers == s.producers[p := t.producers[p]]
    ensures AnyProducer(t, Blocked) ==> t.producers[p] == Blocked || (AnyProducer(s, Blocked) && |s.producers| > 1)
    ensures AnyProducer(s, Rechecking) ==> s.producers[p] == Rechecking || AnyProducer(t, Rechecking)
  {
    if AnyProducer(t, Blocked) {
      var b :| 0 <= b < |t.producers| && t.producers[b] == Blocked;
      if b != p { assert s.producers[b] == Blocked; }
    }
    if AnyProducer(s, Rechecking) {
      var r :| 0 <= r < |s.producers| && s.producers[r] == Rechecking;
      if r != p { assert t.producers[r] == Rechecking; }
    }
  }

  ghost predicate Inv(s: Pool) {
    && (s.bStop || Wakeups(s))
    && JobsCounted(s) && InOrder(s) && OnceEach(s) && Stopping(s)
    && (Narrow(s) ==> !Stranded(s))
  }

  lemma StepKeepsInv(s: Pool, step: Step)
    requires Inv(s) && Enabled(s, step)
    ensures Inv(Do(s, step))
  {
    hide Wakeups, JobsCounted, InOrder, OnceEach, Stopping, Stranded;
    StepInOrder(s, step);
    StepStopping(s, step);
    if Narrow(s) { StepNotStranded(s, step); }
    if step.Stops? {
      StopKeeps(s);
    } else if WorkerStep(step) {
      if !s.bStop { WorkerStepWakeups(s, step); }
      WorkerStepJobs(s, step);
      WorkerStepOnce(s, step);
    } else {
      if !s.bStop { ProducerStepWakeups(s, step); }
      ProducerStepJobs(s, step);
      ProducerStepOnce(s, step);
    }
  }

  lemma StopKeeps(s: Pool)
    requires Enabled(s, Stops) && JobsCounted(s) && OnceEach(s)
    ensures JobsCounted(Do(s, Stops)) && OnceEach(Do(s, Stops))
  {
  }

  lemma InitializedInv(threads: nat, callers: nat, maxJobs: nat, blockIfFull: bool)
    ensures Inv(Initialized(threads, callers, maxJobs, blockIfFull))
  {
    var s := Initialized(threads, callers, maxJobs, blockIfFull);
    forall m ensures Tally(s.workers, m) == 0 { NothingTallied(s.workers, m); }
    forall l ensures Total(s.producers, l) == 0 { NothingTotalled(s.producers, l); }
  }

  lemma {:induction false} NothingTallied(ws: seq<Worker>, m: Measure)
    requires forall i :: 0 <= i < |ws| ==> ws[i] == Starting
    ensures Tally(ws, m) == 0
  {
    if ws != [] { NothingTallied(ws[..|ws| - 1], m); }
  }

  lemma {:induction false} NothingTotalled(ps: seq<Producer>, l: Load)
    requires forall i :: 0 <= i < |ps| ==> ps[i] == Free
    ensures Total(ps, l) == 0
  {
    if ps != [] { NothingTotalled(ps[..|ps| - 1], l); }
  }

  lemma {:induction false} RunKeepsInv(s: Pool, steps: seq<Step>)
    requires Inv(s) && Possible(s, steps)
    ensures Inv(Run(s, steps))
    decreases |steps|
  {
    hide Inv, Do, Enabled;
    if steps == [] {
    } else {
      StepKeepsInv(s, steps[0]);
      RunKeepsInv(Do(s, steps[0]), steps[1..]);
    }
  }

  // ----- what every run guarantees -----

  lemma RunFromStart(threads: nat, callers: nat, maxJobs: nat, blockIfFull: bool, steps: seq<Step>)
    requires Possible(Initialized(threads, callers, maxJobs, blockIfFull), steps)
    ensures Inv(Run(Initialized(threads, callers, maxJobs, blockIfFull), steps))
  {
    hide Inv;
    InitializedInv(threads, callers, maxJobs, blockIfFull);
    RunKeepsInv(Initialized(threads, callers, maxJobs, blockIfFull), steps);
  }

  /** No wakeup is lost: although posts on the full semaphore vanish, workers time out, and busy workers
      take jobs without waiting, the stored and coming wakeups cover the queued jobs that no woken
      worker will fetch, or all idle workers. */
  lemma WakeupsSuffice(threads: nat, callers: nat, maxJobs: nat, blockIfFull: bool, steps: seq<Step>)
    requires Possible(Initialized(threads, callers, maxJobs, blockIfFull), steps)
    ensures var s := Run(Initialized(threads, callers, maxJobs, blockIfFull), steps);
      !s.bStop ==>
        && s.hJobAdded + Total(s.producers, AnyAppended) >= Min(|s.jobList| - Tally(s.workers, Roused), Tally(s.workers, Idle))
        && (s.jobList != [] && Tally(s.workers, Roused) == Total(s.producers, AnyAppended) == 0 < Tally(s.workers, Idle) ==> s.hJobAdded > 0)
  {
    hide Tally, Total, Run;
    RunFromStart(threads, callers, maxJobs, blockIfFull, steps);
  }

  lemma {:induction false} NoneAbandoned(ws: seq<Worker>)
    requires forall i :: 0 <= i < |ws| ==> !ws[i].Exited?
    ensures Tally(ws, Abandoned) == 0
  {
    if ws != [] { NoneAbandoned(ws[..|ws| - 1]); }
  }

  /** Until the pool is stopped, uNoOfJobs counts the jobs that are reserved, queued, or held by a worker, and stays within its limit. */
  lemma JobsConserved(threads: nat, callers: nat, maxJobs: nat, blockIfFull: bool, steps: seq<Step>)
    requires Possible(Initialized(threads, callers, maxJobs, blockIfFull), steps)
    ensures var s := Run(Initialized(threads, callers, maxJobs, blockIfFull), steps);
      && s.uNoOfJobs <= maxJobs
      && (!s.bStop ==> s.uNoOfJobs == Total(s.producers, AnyReserved) + |s.jobList| + Tally(s.workers, Holding))
  {
    var s0 := Initialized(threads, callers, maxJobs, blockIfFull);
    RunFromStart(threads, callers, maxJobs, blockIfFull, steps);
    MaxIsConstant(s0, steps);
    var s := Run(s0, steps);
    if !s.bStop { NoneAbandoned(s.workers); }
  }

  lemma {:induction false} MaxIsConstant(s: Pool, steps: seq<Step>)
    requires Possible(s, steps)
    ensures var t := Run(s, steps); t.uNoOfJobsMax == s.uNoOfJobsMax && |t.producers| == |s.producers|
    decreases |steps|
  {
    if steps == [] {
    } else {
      MaxIsConstant(Do(s, steps[0]), steps[1..]);
    }
  }

  /** Jobs are fetched in the order in which they were appended, and each job is started at most once, after it was fetched. */
  lemma FetchedInOrderStartedOnce(threads: nat, callers: nat, maxJobs: nat, blockIfFull: bool, steps: seq<Step>, j: Job)
    requires Possible(Initialized(threads, callers, maxJobs, blockIfFull), steps)
    ensures var s := Run(Initialized(threads, callers, maxJobs, blockIfFull), steps);
      && s.fetched + s.jobList == s.appended
      && multiset(s.started)[j] <= multiset(s.fetched)[j] <= multiset(s.appended)[j] <= 1
  {
    hide Tally, Total;
    RunFromStart(threads, callers, maxJobs, blockIfFull, steps);
    var s := Run(Initialized(threads, callers, maxJobs, blockIfFull), steps);
    assert multiset(s.appended)[j] + Total(s.producers, ReservedJob(j)) == if j < s.uJobId then 1 else 0;
    assert multiset(s.started)[j] + Tally(s.workers, Unstarted(j)) == multiset(s.fetched)[j];
    assert multiset(s.appended) == multiset(s.fetched) + multiset(s.jobList) by { assert s.fetched + s.jobList == s.appended; }
  }

  /** Once the pool was told to stop, each worker starts at most one more job. */
  lemma AtMostOneMoreJob(threads: nat, callers: nat, maxJobs: nat, blockIfFull: bool, steps: seq<Step>)
    requires Possible(Initialized(threads, callers, maxJobs, blockIfFull), steps)
    ensures forall i :: 0 <= i < |Run(Initialized(threads, callers, maxJobs, blockIfFull), steps).late| ==>
      Run(Initialized(threads, callers, maxJobs, blockIfFull), steps).late[i] <= 1
  {
    RunFromStart(threads, callers, maxJobs, blockIfFull, steps);
    hide Run;
  }

  // ----- after the stop -----

  /** How many steps a worker can still take once the pool was told to stop. */
  function Rank(w: Worker): nat {
    match w
    case Waiting => 5
    case Woken => 4
    case Running(_) => 3
    case Refetching => 2
    case Starting => 2
    case Testing(_) => 1
    case Exited(_) => 0
  }

  function Ranks(ws: seq<Worker>): nat {
    if ws == [] then 0 else Ranks(ws[..|ws| - 1]) + Rank(ws[|ws| - 1])
  }

  lemma {:induction false} RanksUpdate(ws: seq<Worker>, i: nat, w: Worker)
    requires i < |ws|
    ensures Ranks(ws[i := w]) == Ranks(ws) - Rank(ws[i]) + Rank(w)
    ensures Ranks(ws) >= Rank(ws[i])
  {
    var last := |ws| - 1;
    if i == last {
      assert ws[i := w][..last] == ws[..last];
    } else {
      RanksUpdate(ws[..last], i, w);
      assert ws[i := w][..last] == ws[..last][i := w];
    }
  }

  /** Each step that is still possible brings a worker nearer to its exit. */
  lemma StepAfterStop(s: Pool, step: Step)
    requires Stopping(s) && s.bStop && Enabled(s, step)
    ensures var t := Do(s, step); WorkerStep(step) && t.bStop && Ranks(t.workers) < Ranks(s.workers)
  {
    hide Ranks;
    var t, i := Do(s, step), step.i;
    assert t.workers == s.workers[i := t.workers[i]];
    RanksUpdate(s.workers, i, t.workers[i]);
  }

  /** Once the pool was told to stop, there is a wakeup for each waiting worker. */
  predicate StopWakes(s: Pool) {
    s.bStop ==> s.hJobAdded >= Tally(s.workers, Asleep)
  }

  lemma StepStopWakes(s: Pool, step: Step)
    requires Stopping(s) && StopWakes(s) && Enabled(s, step)
    ensures StopWakes(Do(s, step))
  {
    hide Tally;
    if step.Stops? {
      TallyBound(s.workers, Asleep);
    } else if s.bStop {
      TallyStep(s, step, Asleep);
    }
  }

  lemma {:induction false} RunStopWakes(s: Pool, steps: seq<Step>)
    requires Stopping(s) && StopWakes(s) && Possible(s, steps)
    ensures StopWakes(Run(s, steps))
    decreases |steps|
  {
    hide Stopping, StopWakes, Do, Enabled;
    if steps == [] {
    } else {
      StepStopWakes(s, steps[0]);
      StepStopping(s, steps[0]);
      RunStopWakes(Do(s, steps[0]), steps[1..]);
    }
  }

  /** Over any run: after the stop there is a stored wakeup for each waiting worker, so each of them can be woken at once;
      when nothing is left to happen but timeouts, all workers have exited already. */
  lemma StoppedWorkersWake(threads: nat, callers: nat, maxJobs: nat, blockIfFull: bool, steps: seq<Step>)
    requires Possible(Initialized(threads, callers, maxJobs, blockIfFull), steps)
    requires Run(Initialized(threads, callers, maxJobs, blockIfFull), steps).bStop
    ensures var s := Run(Initialized(threads, callers, maxJobs, blockIfFull), steps);
      && s.hJobAdded >= Tally(s.workers, Asleep)
      && (forall i :: 0 <= i < |s.workers| && s.workers[i].Waiting? ==> Enabled(s, Wakes(i)))
      && ((forall step :: Enabled(s, step) ==> step.TimesOut?) ==> AllExited(s))
  {
    hide Tally, Run, Possible;
    var s0 := Initialized(threads, callers, maxJobs, blockIfFull);
    InitializedInv(threads, callers, maxJobs, blockIfFull);
    RunStopWakes(s0, steps);
    RunFromStart(threads, callers, maxJobs, blockIfFull, steps);
    var s := Run(s0, steps);
    forall i | 0 <= i < |s.workers| && s.workers[i].Waiting?
      ensures Enabled(s, Wakes(i))
    {
      TallyUpdate(s.workers, i, s.workers[i], Asleep);
    }
    if forall step :: Enabled(s, step) ==> step.TimesOut? {
      forall i | 0 <= i < |s.workers|
        ensures s.workers[i].Exited?
      {
        var step := StepOfWorker(s, i);
        assert !Enabled(s, Wakes(i));
      }
    }
  }

  predicate Waits(b: Producer) {
    b.Blocked? || b.Rechecking?
  }

  /** A caller that waits for room goes on waiting until it gives up by its timeout, or it finds room, reserves it and
      gets the next job number. */
  lemma WaitingCallerLeaves(s: Pool, step: Step, p: nat)
    requires p < |s.producers| && Waits(s.producers[p]) && Enabled(s, step)
    ensures |Do(s, step).producers| == |s.producers|
    ensures !Waits(Do(s, step).producers[p]) <==>
      step == GivesUp(p) || (step == Rechecks(p) && s.uNoOfJobs < s.uNoOfJobsMax)
    ensures step == Rechecks(p) && s.uNoOfJobs < s.uNoOfJobsMax ==>
      Do(s, step).producers[p] == Reserved(s.uJobId) && Do(s, step).uNoOfJobs == s.uNoOfJobs + 1
  {
  }

  /** How many workers were woken, and how many posts there were, in a run. */
  function Wakings(steps: seq<Step>): nat {
    if steps == [] then 0 else (if steps[0].Wakes? then 1 else 0) + Wakings(steps[1..])
  }

  function Postings(steps: seq<Step>): nat {
    if steps == [] then 0 else (if steps[0].Posts? then 1 else 0) + Postings(steps[1..])
  }

  /** Before the stop no worker is woken without an added job: stored wakeups and wakings are paid for by posts. */
  lemma {:induction false} WakeupsArePaidFor(s: Pool, steps: seq<Step>)
    requires Possible(s, steps) && !Run(s, steps).bStop
    ensures !s.bStop && Run(s, steps).hJobAdded + Wakings(steps) <= s.hJobAdded + Postings(steps)
    decreases |steps|
  {
    hide Enabled;
    if steps == [] {
    } else {
      WakeupsArePaidFor(Do(s, steps[0]), steps[1..]);
      StepPays(s, steps[0]);
    }
  }

  lemma StepPays(s: Pool, step: Step)
    requires Enabled(s, step) && !Do(s, step).bStop
    ensures !s.bStop
    ensures Do(s, step).hJobAdded + (if step.Wakes? then 1 else 0) <= s.hJobAdded + if step.Posts? then 1 else 0
  {
  }

  /** In a pool that does not block, no caller of AddJob ever waits. */
  lemma {:induction false} RefusingNeverBlocks(s: Pool, steps: seq<Step>)
    requires !s.bBlockIfFull && !AnyProducer(s, Blocked) && !AnyProducer(s, Rechecking) && Possible(s, steps)
    ensures !AnyProducer(Run(s, steps), Blocked)
    decreases |steps|
  {
    hide AnyProducer;
    if steps == [] {
    } else {
      StepNeverBlocks(s, steps[0]);
      RefusingNeverBlocks(Do(s, steps[0]), steps[1..]);
    }
  }

  lemma StepNeverBlocks(s: Pool, step: Step)
    requires !s.bBlockIfFull && !AnyProducer(s, Blocked) && !AnyProducer(s, Rechecking) && Enabled(s, step)
    ensures var t := Do(s, step); !t.bBlockIfFull && !AnyProducer(t, Blocked) && !AnyProducer(t, Rechecking)
  {
    var t := Do(s, step);
    if !WorkerStep(step) && !step.Stops? {
      assert t.producers == s.producers[step.p := t.producers[step.p]];
    }
  }

  /** No step is possible any more. */
  ghost predicate AtRest(s: Pool) {
    forall step :: !Enabled(s, step)
  }

  predicate AllExited(s: Pool) {
    forall i :: 0 <= i < |s.workers| ==> s.workers[i].Exited?
  }

  /** After the stop every run is short, however the workers are interleaved, and it cannot come to a
      standstill before all workers have exited. */
  lemma {:induction false} WorkersExit(s: Pool, steps: seq<Step>)
    requires Stopping(s) && s.bStop && Possible(s, steps)
    ensures |steps| <= Ranks(s.workers)
    ensures AtRest(Run(s, steps)) ==> AllExited(Run(s, steps))
    decreases |steps|
  {
    if steps == [] {
      if AtRest(s) {
        forall i | 0 <= i < |s.workers|
          ensures s.workers[i].Exited?
        {
          var step := StepOfWorker(s, i);
        }
      }
    } else {
      hide Ranks, AtRest, AllExited;
      StepAfterStop(s, steps[0]);
      WorkerStepStopping(s, steps[0]);
      WorkersExit(Do(s, steps[0]), steps[1..]);
    }
  }

  /** A worker that has not exited can take a step: it never waits without a timeout. */
  lemma StepOfWorker(s: Pool, i: nat) returns (step: Step)
    requires i < |s.workers| == |s.late|
    ensures !s.workers[i].Exited? ==> Enabled(s, step) && WorkerStep(step) && step.i == i
  {
    step := match s.workers[i]
      case Starting => WorkerStarts(i)
      case Testing(_) => Tests(i)
      case Waiting => TimesOut(i)
      case Woken => Fetches(i)
      case Running(_) => Completes(i)
      case _ => Refetches(i);
  }
}
