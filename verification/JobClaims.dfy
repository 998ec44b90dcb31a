/**
 * Hook jobs and the workers that claim them (backend/app/jobs/services.py, backend/app/worker.py):
 * each transaction is one step, and a worker may stop for good between any two of its own.
 */
module JobClaims {
  import opened Options
  import opened Registry

  const LEASE: Duration := 180 * SECOND

  datatype JobStatus = PendingJob | RunningJob | CompletedJob | FailedJob
  datatype Job = Job(status: JobStatus, attempts: nat, nextAttemptAt: Instant, lockedAt: Option<Instant>)

  datatype Execution = Pending | Running | Succeeded | Failed

  predicate Expired(job: Job, now: Instant) {
    job.status.RunningJob? && job.lockedAt.Some? && job.lockedAt.value < now - LEASE
  }

  function ReapedJob(job: Job, now: Instant): Job {
    if Expired(job, now) then job.(status := FailedJob) else job
  }

  function ReapedExecution(job: Job, e: Execution, now: Instant): Execution {
    if Expired(job, now) && e.Running? then Failed else e
  }

  predicate Claimable(job: Job, now: Instant) {
    job.status.PendingJob? && job.nextAttemptAt <= now && (job.lockedAt.None? || job.lockedAt.value < now - LEASE)
  }

  function ClaimedJob(job: Job, now: Instant): Job {
    job.(status := RunningJob, lockedAt := Some(now), attempts := job.attempts + 1)
  }

  /** Job i runs execution i. */
  datatype Tables = Tables(jobs: seq<Job>, executions: seq<Execution>)

  function Reaped(t: Tables, now: Instant): (r: Tables)
    requires |t.jobs| == |t.executions|
    ensures |r.jobs| == |r.executions| == |t.jobs|
  {
    Tables(seq(|t.jobs|, i requires 0 <= i < |t.jobs| => ReapedJob(t.jobs[i], now)),
           seq(|t.jobs|, i requires 0 <= i < |t.jobs| => ReapedExecution(t.jobs[i], t.executions[i], now)))
  }

  function ExpiredCount(jobs: seq<Job>, now: Instant): nat {
    if jobs == [] then 0
    else ExpiredCount(jobs[..|jobs| - 1], now) + if Expired(jobs[|jobs| - 1], now) then 1 else 0
  }

  lemma NoneExpired(now: Instant)
    ensures ExpiredCount([], now) == 0
  {
  }

  lemma ExpiredCountNext(jobs: seq<Job>, i: nat, now: Instant)
    requires i < |jobs|
    ensures ExpiredCount(jobs[..i + 1], now) == ExpiredCount(jobs[..i], now) + if Expired(jobs[i], now) then 1 else 0
  {
    assert jobs[..i + 1][..i] == jobs[..i];
  }

  class JobTable {
    var jobs: seq<Job>
    var executions: seq<Execution>

    ghost function Contents(): Tables
      reads this
    {
      Tables(jobs, executions)
    }

    ghost predicate Valid()
      reads this
    {
      |jobs| == |executions|
    }

    constructor ()
      ensures Valid() && Contents() == Tables([], [])
    {
      jobs, executions := [], [];
    }

    method RecoverExpiredLeases(now: Instant) returns (recovered: nat)
      requires Valid()
      modifies this
      ensures Valid() && Contents() == Reaped(old(Contents()), now)
      ensures recovered == ExpiredCount(old(jobs), now)
    {
      hide ExpiredCount;
      recovered := 0;
      NoneExpired(now);
      ghost var after := Reaped(Contents(), now);
      for i := 0 to |jobs|
        invariant Valid() && |jobs| == |old(jobs)|
        invariant forall k :: 0 <= k < |jobs| ==> jobs[k] == if k < i then after.jobs[k] else old(jobs)[k]
        invariant forall k :: 0 <= k < |jobs| ==> executions[k] == if k < i then after.executions[k] else old(executions)[k]
        invariant recovered == ExpiredCount(old(jobs)[..i], now)
      {
        ExpiredCountNext(old(jobs), i, now);
        var job := jobs[i];
        if job.status.RunningJob? && job.lockedAt.Some? && job.lockedAt.value < now - LEASE {
          jobs := jobs[i := job.(status := FailedJob)];
          if executions[i].Running? {
            executions := executions[i := Failed];
          }
          recovered := recovered + 1;
        }
      }
      assert old(jobs)[..|jobs|] == old(jobs);
    }

    /** Reaps, then takes the oldest job that can be claimed. */
    method ClaimJob(now: Instant) returns (claimed: Option<nat>)
      requires Valid()
      modifies this
      ensures Valid()
      ensures var reaped := Reaped(old(Contents()), now);
        match claimed
        case None => Contents() == reaped && forall i :: 0 <= i < |reaped.jobs| ==> !Claimable(reaped.jobs[i], now)
        case Some(k) =>
          && k < |reaped.jobs| && Claimable(reaped.jobs[k], now)
          && (forall i :: 0 <= i < k ==> !Claimable(reaped.jobs[i], now))
          && Contents() == reaped.(jobs := reaped.jobs[k := ClaimedJob(reaped.jobs[k], now)])
    {
      var _ := RecoverExpiredLeases(now);
      for i := 0 to |jobs|
        invariant Contents() == Reaped(old(Contents()), now)
        invariant forall j :: 0 <= j < i ==> !Claimable(jobs[j], now)
      {
        if Claimable(jobs[i], now) {
          jobs := jobs[i := jobs[i].(status := RunningJob, lockedAt := Some(now), attempts := jobs[i].attempts + 1)];
          return Some(i);
        }
      }
      claimed := None;
    }
  }

  // Any number of workers.

  /** A worker that has committed a claim, or committed the start of a child, of one job. */
  datatype Worker = Idle | Holding(job: nat) | Executing(job: nat)

  /** What its workers have done for a job so far: taken it, started its child, stored how it ended. */
  datatype Progress = Unclaimed | Claimed | Started | Ended

  /** `starts` counts children; `reapedAt` is how far the work had come when its lease was reaped. */
  datatype History = History(starts: nat, progress: Progress, reapedAt: Option<Progress>)

  /** History i is that of job i; no step depends on it. */
  datatype World = World(t: Tables, workers: seq<Worker>, history: seq<History>)

  datatype Action =
    | Enqueue(at: Instant)
    | Hire
    | Claim(worker: nat, job: nat, now: Instant)
    | Reap(now: Instant)
    | Begin(worker: nat)
    | Finish(worker: nat, success: bool)
    | Raise(worker: nat)
    | Crash(worker: nat)

  function Start(): World {
    World(Tables([], []), [], [])
  }

  predicate Shaped(w: World) {
    |w.t.jobs| == |w.t.executions| == |w.history|
  }

  predicate Enabled(w: World, a: Action)
    requires Shaped(w)
  {
    match a
    case Enqueue(_) => true
    case Hire => true
    case Claim(i, k, now) =>
      i < |w.workers| && w.workers[i].Idle? && k < |w.t.jobs| && Claimable(Reaped(w.t, now).jobs[k], now)
    case Reap(_) => true
    case Begin(i) => i < |w.workers| && w.workers[i].Holding? && w.workers[i].job < |w.t.jobs|
    case Finish(i, _) => i < |w.workers| && w.workers[i].Executing? && w.workers[i].job < |w.t.jobs|
    case Raise(i) => i < |w.workers| && !w.workers[i].Idle? && w.workers[i].job < |w.t.jobs|
    case Crash(i) => i < |w.workers|
  }

  /** Worker i goes on to `worker`; the work on its job is now this far. */
  function Moved(w: World, i: nat, worker: Worker, k: nat, h: History): World
    requires i < |w.workers| && k < |w.history|
  {
    w.(workers := w.workers[i := worker], history := w.history[k := h])
  }

  predicate Unended(e: Execution) {
    e.Pending? || e.Running?
  }

  /** An exception fails the job, and the execution unless it has ended. */
  function Broken(t: Tables, k: nat): Tables
    requires k < |t.jobs| == |t.executions|
  {
    t.(executions := t.executions[k := if Unended(t.executions[k]) then Failed else t.executions[k]],
       jobs := t.jobs[k := t.jobs[k].(status := FailedJob)])
  }

  /** The result of the child is stored and the job done, whatever became of either meanwhile. */
  function Done(t: Tables, k: nat, success: bool): Tables
    requires k < |t.jobs| == |t.executions|
  {
    t.(executions := t.executions[k := if success then Succeeded else Failed],
       jobs := t.jobs[k := t.jobs[k].(status := CompletedJob, lockedAt := None)])
  }

  function ReapedHistory(job: Job, h: History, now: Instant): History {
    if Expired(job, now) then h.(reapedAt := Some(h.progress)) else h
  }

  function ReapedWorld(w: World, now: Instant): (r: World)
    requires Shaped(w)
    ensures Shaped(r) && |r.history| == |w.history|
  {
    w.(t := Reaped(w.t, now),
       history := seq(|w.history|, i requires 0 <= i < |w.history| => ReapedHistory(w.t.jobs[i], w.history[i], now)))
  }

  /** Without a pending or running execution there is nothing to run: the job is done. Otherwise the child starts. */
  function Begun(w: World, i: nat, k: nat): World
    requires Shaped(w) && i < |w.workers| && k < |w.t.jobs|
  {
    var h := w.history[k];
    if Unended(w.t.executions[k])
    then Moved(w.(t := w.t.(executions := w.t.executions[k := Running])), i, Executing(k), k, History(h.starts + 1, Started, h.reapedAt))
    else Moved(w.(t := w.t.(jobs := w.t.jobs[k := w.t.jobs[k].(status := CompletedJob)])), i, Idle, k, h.(progress := Ended))
  }

  function Next(w: World, a: Action): World
    requires Shaped(w) && Enabled(w, a)
  {
    match a
    case Enqueue(at) =>
      w.(t := Tables(w.t.jobs + [Job(PendingJob, 0, at, None)], w.t.executions + [Pending]),
         history := w.history + [History(0, Unclaimed, None)])
    case Hire => w.(workers := w.workers + [Idle])
    case Claim(i, k, now) =>
      var r := ReapedWorld(w, now);
      Moved(r.(t := r.t.(jobs := r.t.jobs[k := ClaimedJob(r.t.jobs[k], now)])), i, Holding(k), k, r.history[k].(progress := Claimed))
    case Reap(now) => ReapedWorld(w, now)
    case Begin(i) => Begun(w, i, w.workers[i].job)
    case Finish(i, success) =>
      var k := w.workers[i].job;
      Moved(w.(t := Done(w.t, k, success)), i, Idle, k, w.history[k].(progress := Ended))
    case Raise(i) =>
      var k := w.workers[i].job;
      Moved(w.(t := Broken(w.t, k)), i, Idle, k, w.history[k].(progress := Ended))
    case Crash(i) => w.(workers := w.workers[i := Idle])
  }

  function Stepped(w: World, a: Action): World {
    if Shaped(w) && Enabled(w, a) then Next(w, a) else w
  }

  function From(w: World, run: seq<Action>): World {
    if run == [] then w else Stepped(From(w, run[..|run| - 1]), run[|run| - 1])
  }

  function After(run: seq<Action>): World {
    From(Start(), run)
  }

  /** A job has been claimed exactly when it is no longer pending, and no more than once. */
  predicate ClaimedOnce(job: Job) {
    job.attempts == (if job.status.PendingJob? then 0 else 1) && (job.status.PendingJob? ==> job.lockedAt.None?)
  }

  /** A child is started only for a claimed job, and once; job and execution follow from what workers and reaper did. */
  predicate StatusFits(job: Job, e: Execution, h: History) {
    && h.starts <= job.attempts
    && (h.progress.Unclaimed? || h.progress.Claimed? ==> h.starts == 0)
    && (h.progress.Started? ==> h.starts == 1)
    && (h.progress.Unclaimed? ==> h.reapedAt.None?)
    && (h.reapedAt == None || h.reapedAt == Some(Claimed) || h.reapedAt == Some(Started))
    && (h.reapedAt == Some(Started) ==> h.progress.Started? || h.progress.Ended?)
    && (job.status.PendingJob? <==> h.progress.Unclaimed?)
    && (job.status.RunningJob? <==> (h.progress.Claimed? || h.progress.Started?) && h.reapedAt.None?)
    && (job.status.CompletedJob? ==> h.progress.Ended?)
    && (e.Pending? <==> h.progress.Unclaimed? || h.progress.Claimed?)
    && (e.Running? <==> h.progress.Started? && h.reapedAt != Some(Started))
  }

  ghost predicate RowsFit(w: World) {
    && Shaped(w)
    && forall k :: 0 <= k < |w.t.jobs| ==> ClaimedOnce(w.t.jobs[k]) && StatusFits(w.t.jobs[k], w.t.executions[k], w.history[k])
  }

  predicate Works(worker: Worker, k: nat) {
    !worker.Idle? && worker.job == k
  }

  /** Who holds a job has claimed it, who executes one has started its child, and no two hold the same. */
  ghost predicate WorkersFit(w: World) {
    && Shaped(w)
    && (forall i :: 0 <= i < |w.workers| && !w.workers[i].Idle? ==>
          && w.workers[i].job < |w.t.jobs|
          && w.history[w.workers[i].job].progress == (if w.workers[i].Holding? then Claimed else Started))
    && (forall i, j :: 0 <= i < j < |w.workers| && !w.workers[i].Idle? && !w.workers[j].Idle? ==>
          w.workers[i].job != w.workers[j].job)
  }

  lemma ReapingKeepsRows(w: World, now: Instant)
    requires RowsFit(w)
    ensures RowsFit(ReapedWorld(w, now))
  {
  }

  lemma ClaimingKeepsRows(w: World, i: nat, k: nat, now: Instant)
    requires RowsFit(w) && Enabled(w, Claim(i, k, now))
    ensures RowsFit(Next(w, Claim(i, k, now)))
  {
    ReapingKeepsRows(w, now);
    assert ClaimedOnce(w.t.jobs[k]) && StatusFits(w.t.jobs[k], w.t.executions[k], w.history[k]);
    var r := ReapedWorld(w, now);
    assert r.t.jobs[k] == w.t.jobs[k] && r.t.executions[k] == w.t.executions[k] && r.history[k] == w.history[k];
  }

  lemma StepKeepsRows(w: World, a: Action)
    requires RowsFit(w) && WorkersFit(w) && Enabled(w, a)
    ensures RowsFit(Next(w, a))
  {
    match a
    case Claim(i, k, now) => ClaimingKeepsRows(w, i, k, now); hide RowsFit;
    case Reap(now) => ReapingKeepsRows(w, now); hide RowsFit;
    case _ => hide Reaped, ReapedWorld;
  }

  lemma StepKeepsWorkers(w: World, a: Action)
    requires RowsFit(w) && WorkersFit(w) && Enabled(w, a)
    ensures WorkersFit(Next(w, a))
  {
    if a.Claim? {
      ClaimedJobIsFree(w, a.job, a.now);
    }
    hide RowsFit;
  }

  /** Nobody holds a job that can be claimed. */
  lemma ClaimedJobIsFree(w: World, k: nat, now: Instant)
    requires RowsFit(w) && WorkersFit(w) && k < |w.t.jobs| && Claimable(Reaped(w.t, now).jobs[k], now)
    ensures w.t.jobs[k].status.PendingJob?
    ensures forall i :: 0 <= i < |w.workers| ==> !Works(w.workers[i], k)
  {
    assert ClaimedOnce(w.t.jobs[k]) && StatusFits(w.t.jobs[k], w.t.executions[k], w.history[k]);
    hide RowsFit;
  }

  lemma {:induction false} EveryRunFits(run: seq<Action>)
    ensures RowsFit(After(run)) && WorkersFit(After(run))
  {
    if run != [] {
      var w, a := After(run[..|run| - 1]), run[|run| - 1];
      EveryRunFits(run[..|run| - 1]);
      if Shaped(w) && Enabled(w, a) {
        StepKeepsRows(w, a);
        StepKeepsWorkers(w, a);
      }
      hide RowsFit, WorkersFit, Next, Enabled;
    }
  }

  /** No job is claimed twice and no child started twice, under any number of workers, crashes and leases. */
  lemma ClaimedAndStartedOnce(run: seq<Action>, k: nat)
    requires k < |After(run).t.jobs|
    ensures Shaped(After(run))
    ensures After(run).t.jobs[k].attempts <= 1
    ensures After(run).history[k].starts <= After(run).t.jobs[k].attempts
    ensures forall i, j :: 0 <= i < j < |After(run).workers| ==> !(Works(After(run).workers[i], k) && Works(After(run).workers[j], k))
  {
    EveryRunFits(run);
    hide After;
  }

  /** A completed job leaves an execution that has ended. */
  lemma CompletedJobHasEndedExecution(run: seq<Action>, k: nat)
    requires k < |After(run).t.jobs| && After(run).t.jobs[k].status.CompletedJob?
    ensures Shaped(After(run)) && !Unended(After(run).t.executions[k])
  {
    EveryRunFits(run);
    hide After;
  }

  /**
   * An execution marked running has a running job, which a later reaping can give up, exactly unless
   * the lease had been reaped before its child was started.
   */
  lemma RunningExecutionIsReapable(run: seq<Action>, k: nat)
    requires k < |After(run).t.jobs| && Shaped(After(run)) && After(run).t.executions[k].Running?
    ensures After(run).t.jobs[k].status.RunningJob? <==> After(run).history[k].reapedAt != Some(Claimed)
  {
    EveryRunFits(run);
    hide After;
  }

  predicate IsOver(job: Job) {
    job.status.CompletedJob? || job.status.FailedJob?
  }

  /**
   * A job that is over leaves its execution unended exactly when its lease was reaped between the
   * claim and the start of the child, and no worker has stored an end since: pending if the child
   * was not started after that, running if it was.
   */
  lemma OverJobIsUnendedIff(run: seq<Action>, k: nat)
    requires k < |After(run).t.jobs| && Shaped(After(run)) && IsOver(After(run).t.jobs[k])
    ensures var w := After(run);
      && (w.t.executions[k].Pending? <==> w.history[k].reapedAt == Some(Claimed) && w.history[k].progress == Claimed)
      && (w.t.executions[k].Running? <==> w.history[k].reapedAt == Some(Claimed) && w.history[k].progress == Started)
  {
    EveryRunFits(run);
    hide After;
  }

  // Which of these stay so.

  /** Whatever happens from here on, the execution keeps its status. */
  ghost predicate ForGood(w: World, k: nat) {
    && k < |w.t.executions|
    && forall more :: k < |From(w, more).t.executions| && From(w, more).t.executions[k] == w.t.executions[k]
  }

  ghost predicate NobodyWorks(w: World, k: nat) {
    forall i :: 0 <= i < |w.workers| ==> !Works(w.workers[i], k)
  }

  /** A reaping that comes after the job is over does not touch its execution. */
  lemma OverJobIsNeverReaped(t: Tables, k: nat, now: Instant)
    requires k < |t.jobs| == |t.executions| && !t.jobs[k].status.RunningJob?
    ensures Reaped(t, now).executions[k] == t.executions[k] && Reaped(t, now).jobs[k] == t.jobs[k]
  {
  }

  ghost predicate Abandoned(w: World, k: nat, e: Execution) {
    Shaped(w) && k < |w.t.jobs| && IsOver(w.t.jobs[k]) && w.t.executions[k] == e && NobodyWorks(w, k)
  }

  lemma AbandonedStep(w: World, k: nat, e: Execution, a: Action)
    requires Abandoned(w, k, e) && Enabled(w, a)
    ensures Abandoned(Next(w, a), k, e)
  {
    if a.Claim? || a.Reap? {
      OverJobIsNeverReaped(w.t, k, a.now);
    }
  }

  lemma {:induction false} AbandonedStays(w: World, k: nat, e: Execution, more: seq<Action>)
    requires Abandoned(w, k, e)
    ensures Abandoned(From(w, more), k, e)
  {
    if more != [] {
      var before, a := From(w, more[..|more| - 1]), more[|more| - 1];
      AbandonedStays(w, k, e, more[..|more| - 1]);
      if Shaped(before) && Enabled(before, a) {
        AbandonedStep(before, k, e, a);
      }
      hide Abandoned, Next, Enabled;
    }
  }

  lemma FromNext(w: World, run: seq<Action>, a: Action)
    ensures From(w, run + [a]) == Stepped(From(w, run), a)
  {
    assert (run + [a])[..|run|] == run;
  }

  /** Whoever still works on the job can end the execution. */
  lemma WorkerCanEndIt(w: World, i: nat, k: nat)
    requires Shaped(w) && k < |w.t.jobs| && Unended(w.t.executions[k]) && i < |w.workers| && Works(w.workers[i], k)
    ensures !ForGood(w, k)
  {
    FromNext(w, [], Raise(i));
    assert From(w, [] + [Raise(i)]).t.executions[k] == Failed;
  }

  /** An unended execution of a job that is over stays as it is for good exactly when no worker is left on it. */
  lemma StrandedIff(run: seq<Action>, k: nat)
    requires k < |After(run).t.jobs| && Shaped(After(run)) && IsOver(After(run).t.jobs[k]) && Unended(After(run).t.executions[k])
    ensures ForGood(After(run), k) <==> NobodyWorks(After(run), k)
  {
    var w := After(run);
    hide After, ForGood, From;
    if NobodyWorks(w, k) {
      forall more ensures k < |From(w, more).t.executions| && From(w, more).t.executions[k] == w.t.executions[k] {
        AbandonedStays(w, k, w.t.executions[k], more);
      }
      StaysForGood(w, k);
    } else {
      var i :| 0 <= i < |w.workers| && Works(w.workers[i], k);
      WorkerCanEndIt(w, i, k);
    }
  }

  lemma StaysForGood(w: World, k: nat)
    requires k < |w.t.executions|
    requires forall more :: k < |From(w, more).t.executions| && From(w, more).t.executions[k] == w.t.executions[k]
    ensures ForGood(w, k)
  {
    hide From;
  }

  // Both ways of being left behind.

  lemma RunsToClaimed() returns (run: seq<Action>)
    ensures After(run) == World(Tables([Job(RunningJob, 1, 0, Some(0))], [Pending]), [Holding(0)], [History(0, Claimed, None)])
  {
    var r1 := [] + [Enqueue(0)];
    FromNext(Start(), [], Enqueue(0));
    var r2 := r1 + [Hire];
    FromNext(Start(), r1, Hire);
    assert After(r2) == World(Tables([Job(PendingJob, 0, 0, None)], [Pending]), [Idle], [History(0, Unclaimed, None)]);
    run := r2 + [Claim(0, 0, 0)];
    FromNext(Start(), r2, Claim(0, 0, 0));
    hide From;
    assert After(run).t.jobs == [Job(RunningJob, 1, 0, Some(0))];
  }

  /** A worker that stalls past its lease before starting its child, and dies after, leaves the execution running for good. */
  lemma LateStartCanStrand()
    ensures exists run :: var w := After(run);
      && w.workers == [Idle] && |w.t.jobs| == |w.t.executions| == 1
      && w.t.jobs[0].status == FailedJob && w.t.executions[0] == Running && ForGood(w, 0)
  {
    var run := RunsToClaimed();
    hide ForGood, From;
    FromNext(Start(), run, Reap(LEASE + 1));
    FromNext(Start(), run + [Reap(LEASE + 1)], Begin(0));
    FromNext(Start(), run + [Reap(LEASE + 1)] + [Begin(0)], Crash(0));
    run := run + [Reap(LEASE + 1)] + [Begin(0)] + [Crash(0)];
    assert After(run) == World(Tables([Job(FailedJob, 1, 0, Some(0))], [Running]), [Idle], [History(1, Started, Some(Claimed))]);
    StrandedIff(run, 0);
  }

  /** A worker that dies between its claim and the start of its child leaves the execution pending for good. */
  lemma DeadClaimStrandsPending()
    ensures exists run :: var w := After(run);
      && w.workers == [Idle] && |w.t.jobs| == |w.t.executions| == 1
      && w.t.jobs[0].status == FailedJob && w.t.executions[0] == Pending && ForGood(w, 0)
  {
    var run := RunsToClaimed();
    hide ForGood, From;
    FromNext(Start(), run, Crash(0));
    FromNext(Start(), run + [Crash(0)], Reap(LEASE + 1));
    run := run + [Crash(0)] + [Reap(LEASE + 1)];
    assert After(run) == World(Tables([Job(FailedJob, 1, 0, Some(0))], [Pending]), [Idle], [History(0, Claimed, Some(Claimed))]);
    StrandedIff(run, 0);
  }

  // Leases and ends, in their own terms.

  /** A lease lasts three minutes: no reaping before that touches a claimed job, and one after it fails it. */
  lemma LeaseLastsThreeMinutes(job: Job, claimed: Instant, now: Instant)
    ensures var held := ClaimedJob(job, claimed);
      ReapedJob(held, now) == if now - claimed > 180 * 1_000_000 then held.(status := FailedJob) else held
  {
  }

  /** With the job, and not otherwise, a running execution fails; a pending one is left. */
  lemma ReapedWithItsJob(job: Job, e: Execution, now: Instant)
    ensures ReapedExecution(job, e, now) == if ReapedJob(job, now) != job && e == Running then Failed else e
  {
  }

  /** A job can be claimed while it is pending, once it is due; one with a lock left on it only when that is three minutes old. */
  lemma ClaimableWhenDue(job: Job, now: Instant)
    ensures Claimable(job, now) <==>
            job.status == PendingJob && now >= job.nextAttemptAt && (job.lockedAt.Some? ==> now - job.lockedAt.value > 180 * 1_000_000)
  {
  }

  /** In no run is there such a lock: due is enough. */
  lemma PendingJobIsUnlocked(run: seq<Action>, k: nat, now: Instant)
    requires k < |After(run).t.jobs|
    ensures var job := After(run).t.jobs[k];
      Claimable(job, now) <==> job.status == PendingJob && now >= job.nextAttemptAt
  {
    EveryRunFits(run);
    hide After;
  }

  /** A child's end is stored as it was reported, with the job done and unlocked, whatever had become of them; no other row changes. */
  lemma EndIsStored(w: World, i: nat, success: bool)
    requires Shaped(w) && Enabled(w, Finish(i, success))
    ensures var next, k := Next(w, Finish(i, success)), w.workers[i].job;
      && next.t.executions[k] == (if success then Succeeded else Failed)
      && next.t.jobs[k].status == CompletedJob && next.t.jobs[k].lockedAt == None
      && next.workers[i] == Idle && Shaped(next)
      && forall j :: 0 <= j < |w.t.jobs| && j != k ==> next.t.jobs[j] == w.t.jobs[j] && next.t.executions[j] == w.t.executions[j]
  {
  }

  /** An exception fails the job and an execution that has not ended, and no other row. */
  lemma ExceptionIsStored(w: World, i: nat)
    requires Shaped(w) && Enabled(w, Raise(i))
    ensures var next, k := Next(w, Raise(i)), w.workers[i].job;
      && next.t.executions[k] == (if w.t.executions[k] == Pending || w.t.executions[k] == Running then Failed else w.t.executions[k])
      && next.t.jobs[k] == w.t.jobs[k].(status := FailedJob)
      && next.workers[i] == Idle && Shaped(next)
      && forall j :: 0 <= j < |w.t.jobs| && j != k ==> next.t.jobs[j] == w.t.jobs[j] && next.t.executions[j] == w.t.executions[j]
  {
  }

  /** A worker that finds the execution over does not start it again: it completes the job and takes the next. */
  lemma NothingToRunCompletes(w: World, i: nat)
    requires Shaped(w) && Enabled(w, Begin(i))
    ensures var next, k := Next(w, Begin(i)), w.workers[i].job;
      w.t.executions[k] == Succeeded || w.t.executions[k] == Failed ==>
        && next.t == w.t.(jobs := w.t.jobs[k := w.t.jobs[k].(status := CompletedJob)])
        && next.workers == w.workers[i := Idle] && next.history[k] == w.history[k].(progress := Ended)
  {
  }

  /** A claim runs the job, counts the attempt and locks it now; a start runs the execution; a new row is pending. */
  lemma ClaimAndStartAreStored(w: World, i: nat, k: nat, now: Instant)
    requires RowsFit(w) && WorkersFit(w) && Enabled(w, Claim(i, k, now))
    ensures var claimed := Next(w, Claim(i, k, now));
      && claimed.t.jobs[k] == Job(RunningJob, w.t.jobs[k].attempts + 1, w.t.jobs[k].nextAttemptAt, Some(now))
      && claimed.workers[i] == Holding(k) && Shaped(claimed) && Enabled(claimed, Begin(i))
      && (var begun := Next(claimed, Begin(i));
          begun.t.executions[k] == Running && begun.workers[i] == Executing(k) && begun.t.jobs == claimed.t.jobs)
  {
    assert ClaimedOnce(w.t.jobs[k]) && StatusFits(w.t.jobs[k], w.t.executions[k], w.history[k]);
    hide RowsFit, WorkersFit;
  }
}
