/** The processor object: it marks the job, calls the queue, and keeps its counters and its table of active jobs. */
module JobProcessing {
  import opened Options
  import opened Jobs
  import opened JobObject
  import opened Processing

  /** The queue, reduced to the finish and retry calls made on it; none of them raises. */
  class QueueLog {
    var actions: seq<(string, Action)>

    constructor ()
      ensures actions == []
    {
      actions := [];
    }

    method Append(id: string, action: Action)
      modifies this
      ensures actions == old(actions) + [(id, action)]
    {
      actions := actions + [(id, action)];
    }
  }

  lemma TaggedShort(id: string, a: Action, b: Action)
    ensures Tagged(id, []) == [] && Tagged(id, [a]) == [(id, a)] && Tagged(id, [a, b]) == [(id, a), (id, b)]
  {
    assert [a][1..] == [] && [b][1..] == [] && [a, b][1..] == [b];
    assert Tagged(id, [b]) == [(id, b)];
  }

  function RootOf(root: string, id: string): string { if root == "" then id else root }

  /** What a delivery leaves as the reason a caller is told: a time limit and a revoke are named whatever was there
      before, an exception only when nothing was. */
  predicate Explains(before: Option<FailureReason>, after: Option<FailureReason>, cron: bool, d: Delivery) {
    if !Executes(d) then after == before
    else if d.verdict.TimesOut? then after == Some(Timeout)
    else if d.verdict.Stopped? then after == Some(Revoked)
    else if !FailingRun(cron, d) || before.Some? then after == before
    else after == Some(Exception) || (after == Some(Timeout) && d.verdict.Returns?)
  }

  class JobProcessor {
    const workerId: string
    const queue: QueueLog
    var activeJobs: map<string, Job>
    var jobsProcessed: nat
    var jobsFailed: nat
    var jobsRetried: nat

    constructor (workerId: string)
      ensures Valid() && fresh(queue) && queue.actions == [] && activeJobs == map[]
    {
      this.workerId := workerId;
      queue := new QueueLog();
      activeJobs, jobsProcessed, jobsFailed, jobsRetried := map[], 0, 0, 0;
    }

    /** The counters are those of the queue calls made so far. */
    ghost predicate Valid()
      reads this, queue
    {
      && jobsProcessed == Count(queue.actions, IsProcessed)
      && jobsFailed == Count(queue.actions, IsFailed)
      && jobsRetried == Count(queue.actions, IsRetried)
    }

    method Settle(id: string, action: Action)
      requires Valid()
      modifies queue, this`jobsProcessed, this`jobsFailed, this`jobsRetried
      ensures Valid() && queue.actions == old(queue.actions) + [(id, action)]
    {
      CountOneMore(queue.actions, (id, action), IsProcessed);
      CountOneMore(queue.actions, (id, action), IsFailed);
      CountOneMore(queue.actions, (id, action), IsRetried);
      queue.Append(id, action);
      if action.Completed? {
        jobsProcessed := jobsProcessed + 1;
      } else if action.FailedForGood? || action.UnknownTask? {
        jobsFailed := jobsFailed + 1;
      } else if action.Retried? {
        jobsRetried := jobsRetried + 1;
      }
    }

    method HandleFailure(job: Job, p: Policy, timedOut: bool, now: Time)
      requires Valid() && job.attempts >= 1
      modifies queue, this`jobsProcessed, this`jobsFailed, this`jobsRetried, job
      ensures Valid() && job.attempts == old(job.attempts)
      ensures queue.actions == old(queue.actions) + [(job.base.id, FailureAction(p, job.attempts))]
      ensures job.failureReason == if old(job.failureReason).Some? then old(job.failureReason)
                                   else Some(if timedOut then Timeout else Exception)
      ensures job.status == if job.attempts <= p.retries then Retrying else old(job.status)
      ensures job.workerId == old(job.workerId) && job.rootId == old(job.rootId) && job.startedAt == old(job.startedAt)
    {
      if job.failureReason.None? {
        job.failureReason := Some(if timedOut then Timeout else Exception);
      }
      if job.attempts <= p.retries {
        var delay := DelayAt(p, job.attempts);
        job.MarkRetrying("Scheduled for retry", now);
        Settle(job.base.id, Retried(delay));
      } else {
        Settle(job.base.id, FailedForGood);
      }
    }

    /** Runs the task of a marked job and settles the outcome. */
    method ExecuteAndSettle(job: Job, p: Policy, d: Delivery, now: Time)
      requires Valid() && job.attempts >= 1 && d.policy == Some(p) && Starts(d)
      modifies queue, this`jobsProcessed, this`jobsFailed, this`jobsRetried, job
      ensures Valid() && job.attempts == old(job.attempts)
      ensures queue.actions == old(queue.actions) +
                               Tagged(job.base.id, Actions(job.attempts - 1, job.base.source.CronSource?, d))
      ensures Explains(old(job.failureReason), job.failureReason, job.base.source.CronSource?, d)
      ensures job.status == if FailingRun(job.base.source.CronSource?, d) && job.attempts <= p.retries then Retrying
                            else old(job.status)
      ensures job.workerId == old(job.workerId) && job.rootId == old(job.rootId) && job.startedAt == old(job.startedAt)
    {
      TaggedShort(job.base.id, Completed, FailureAction(p, job.attempts));
      TaggedShort(job.base.id, FailureAction(p, job.attempts), StoppedMidway);
      TaggedShort(job.base.id, StoppedMidway, Completed);
      match d.verdict {
        case Returns(_, _) =>
          Settle(job.base.id, Completed);
          if job.base.source.CronSource? && d.rescheduleError.Some? {
            var timedOut: bool := *;
            HandleFailure(job, p, timedOut, now);
          }
        case Stopped(_) =>
          job.failureReason := Some(Revoked);
          Settle(job.base.id, StoppedMidway);
        case TimesOut(_) =>
          job.failureReason := Some(Timeout);
          HandleFailure(job, p, true, now);
        case Raises(_) =>
          HandleFailure(job, p, false, now);
        case Escapes =>
      }
    }

    /** One job taken from the queue: the queue calls, the attempts and the counters afterwards. */
    method ProcessOne(job: Job, d: Delivery, now: Time)
      requires Valid()
      modifies queue, this, job
      ensures Valid()
      ensures queue.actions == old(queue.actions) +
                               Tagged(job.base.id, Actions(old(job.attempts), job.base.source.CronSource?, d))
      ensures job.attempts == AttemptsAfter(old(job.attempts), d)
      ensures activeJobs == if Executes(d) then old(activeJobs) - {job.base.id} else old(activeJobs)
      ensures d.paused && !d.cancelled ==> unchanged(job)
      ensures d.cancelled ==> job.View() == old(job.View()).(rootId := RootOf(old(job.rootId), job.base.id))
      ensures Starts(d) ==> IsUnderWay(job, old(job.rootId), d, now)
      ensures Explains(old(job.failureReason), job.failureReason, job.base.source.CronSource?, d)
    {
      TaggedShort(job.base.id, Skipped, Deferred);
      TaggedShort(job.base.id, Deferred, UnknownTask);
      if d.cancelled {
        if job.rootId == "" {
          job.rootId := job.base.id;
        }
        Settle(job.base.id, Skipped);
        return;
      }
      if d.paused {
        Settle(job.base.id, Deferred);
        return;
      }
      StartAndExecute(job, d, now);
    }

    /** What the job looks like after a delivery that started it. */
    ghost predicate IsUnderWay(job: Job, rootBefore: string, d: Delivery, now: Time)
      reads job
    {
      && job.workerId == Some(workerId) && job.startedAt == Some(now)
      && job.rootId == RootOf(rootBefore, job.base.id)
      && job.status == if && FailingRun(job.base.source.CronSource?, d)
                          && job.attempts <= d.policy.value.retries then Retrying
                       else Active
    }

    method MarkStarted(job: Job, now: Time)
      modifies job
      ensures job.attempts == old(job.attempts) + 1 && job.status == Active && job.workerId == Some(workerId)
      ensures job.startedAt == Some(now) && job.failureReason == old(job.failureReason)
      ensures job.rootId == RootOf(old(job.rootId), job.base.id)
    {
      job.MarkStarted(workerId, "Started", now);
      if job.rootId == "" {
        job.rootId := job.base.id;
      }
    }

    method StartAndExecute(job: Job, d: Delivery, now: Time)
      requires Valid() && Starts(d)
      modifies queue, this, job
      ensures Valid() && job.attempts == old(job.attempts) + 1
      ensures queue.actions == old(queue.actions) +
                               Tagged(job.base.id, Actions(old(job.attempts), job.base.source.CronSource?, d))
      ensures activeJobs == if d.policy.Some? then old(activeJobs) - {job.base.id} else old(activeJobs)
      ensures IsUnderWay(job, old(job.rootId), d, now)
      ensures Explains(old(job.failureReason), job.failureReason, job.base.source.CronSource?, d)
    {
      MarkStarted(job, now);
      if d.policy.Some? {
        ExecuteTracked(job, d.policy.value, d, now);
      } else {
        TaggedShort(job.base.id, UnknownTask, Skipped);
        Settle(job.base.id, UnknownTask);
      }
    }

    /** The job is in the table of active jobs while it runs. */
    method ExecuteTracked(job: Job, p: Policy, d: Delivery, now: Time)
      requires Valid() && job.attempts >= 1 && d.policy == Some(p) && Starts(d)
      modifies queue, this, job
      ensures Valid() && job.attempts == old(job.attempts)
      ensures queue.actions == old(queue.actions) +
                               Tagged(job.base.id, Actions(job.attempts - 1, job.base.source.CronSource?, d))
      ensures Explains(old(job.failureReason), job.failureReason, job.base.source.CronSource?, d)
      ensures job.status == if FailingRun(job.base.source.CronSource?, d) && job.attempts <= p.retries then Retrying
                            else old(job.status)
      ensures job.workerId == old(job.workerId) && job.rootId == old(job.rootId) && job.startedAt == old(job.startedAt)
      ensures activeJobs == old(activeJobs) - {job.base.id}
    {
      RemovedAgain(activeJobs, job.base.id, job);
      activeJobs := activeJobs[job.base.id := job];
      ExecuteAndSettle(job, p, d, now);
      activeJobs := activeJobs - {job.base.id};
    }

    /** One turn, added to those whose queue calls the log holds. */
    method TakeTurn(job: Job, d: Delivery, now: Time, ghost turns: seq<Turn>) returns (ghost turn: Turn)
      requires Valid() && queue.actions == Log(turns)
      modifies queue, this, job
      ensures Valid() && queue.actions == Log(turns + [turn])
      ensures turn == Turn(job.base.id, old(job.attempts), job.base.source.CronSource?, d)
    {
      turn := Turn(job.base.id, job.attempts, job.base.source.CronSource?, d);
      LogOneMore(turns, turn);
      ProcessOne(job, d, now);
    }

    /** The turns of the processor tasks one after another, each with the job it takes, from the first on. */
    method ProcessEach(jobs: seq<Job>, ds: seq<Delivery>, now: Time) returns (ghost turns: seq<Turn>)
      requires Valid() && queue.actions == [] && |jobs| == |ds|
      modifies queue, this, jobs
      ensures Valid() && TurnsOf(turns, jobs, ds) && queue.actions == Log(turns)
    {
      turns := [];
      for i := 0 to |jobs|
        invariant Valid() && TurnsUpTo(turns, jobs, ds, i) && queue.actions == Log(turns)
      {
        ghost var turn := TakeTurn(jobs[i], ds[i], now, turns);
        TurnsGrow(turns, jobs, ds, i, turn);
        turns := turns + [turn];
      }
    }
  }

  lemma TurnsGrow(turns: seq<Turn>, jobs: seq<Job>, ds: seq<Delivery>, i: nat, t: Turn)
    requires i < |jobs| == |ds| && TurnsUpTo(turns, jobs, ds, i)
    requires t.d == ds[i] && t.id == jobs[i].base.id && t.cron == jobs[i].base.source.CronSource?
    ensures TurnsUpTo(turns + [t], jobs, ds, i + 1)
  {
  }

  lemma RemovedAgain<T>(m: map<string, T>, k: string, v: T)
    ensures m[k := v] - {k} == m - {k}
  {
  }

  ghost predicate TurnsOf(turns: seq<Turn>, jobs: seq<Job>, ds: seq<Delivery>) {
    |jobs| == |ds| && TurnsUpTo(turns, jobs, ds, |jobs|)
  }

  ghost predicate TurnsUpTo(turns: seq<Turn>, jobs: seq<Job>, ds: seq<Delivery>, n: nat) {
    && |turns| == n <= |jobs| && n <= |ds|
    && forall i :: 0 <= i < n ==>
         turns[i].d == ds[i] && turns[i].id == jobs[i].base.id && turns[i].cron == jobs[i].base.source.CronSource?
  }

  lemma LogOneMore(turns: seq<Turn>, t: Turn)
    ensures Log(turns + [t]) == Log(turns) + Tagged(t.id, Actions(t.attempts, t.cron, t.d))
  {
    assert (turns + [t])[..|turns|] == turns;
  }

  /** From a fresh processor: its counters after any run, against the number of deliveries. */
  method RunFresh(workerId: string, jobs: seq<Job>, ds: seq<Delivery>, now: Time)
    returns (p: JobProcessor, ghost turns: seq<Turn>)
    requires |jobs| == |ds|
    modifies jobs
    ensures fresh(p) && TurnsOf(turns, jobs, ds) && p.queue.actions == Log(turns)
    ensures p.jobsProcessed + p.jobsFailed + p.jobsRetried + Count(Log(turns), IsCancelled)
            + Count(Log(turns), IsPaused) + Strays(turns) == |ds| + Doubles(turns)
    ensures p.jobsProcessed == Tally(turns, Succeeds) && p.jobsFailed == Tally(turns, FailsForGood)
    ensures p.jobsRetried == Tally(turns, IsRetryable)
  {
    p := new JobProcessor(workerId);
    turns := p.ProcessEach(jobs, ds, now);
    DeliveriesCounted(turns);
    CountersTell(turns);
  }

  // ---------------------------------------------------------------------------------------------
  // The pool of processor tasks
  // ---------------------------------------------------------------------------------------------

  /** Tasks by number, each with the job it is executing if any; `active` is the table of executing jobs. */
  datatype Pool = Pool(concurrency: nat, tasks: map<nat, Option<string>>, active: set<string>, next: nat, stopped: bool)

  datatype PoolStep = Begin(t: nat, job: string) | Finish(t: nat) | Done(t: nat) | Stop

  function Spawn(p: Pool): Pool { p.(tasks := p.tasks[p.next := None], next := p.next + 1) }

  function Started(concurrency: nat, n: nat): Pool {
    if n == 0 then Pool(concurrency, map[], {}, 0, false) else Spawn(Started(concurrency, n - 1))
  }

  predicate CanStep(p: Pool, s: PoolStep) {
    match s
    case Begin(t, _) => t in p.tasks && p.tasks[t].None?
    case Finish(t) => t in p.tasks && p.tasks[t].Some?
    case Done(t) => t in p.tasks && p.tasks[t].None?
    case Stop => true
  }

  /** The done callback discards the finished task and, unless stopping, spawns one in its place. */
  function PoolDo(p: Pool, s: PoolStep): Pool
    requires CanStep(p, s)
  {
    match s
    case Begin(t, job) => p.(tasks := p.tasks[t := Some(job)], active := p.active + {job})
    case Finish(t) => p.(tasks := p.tasks[t := None], active := p.active - {p.tasks[t].value})
    case Done(t) =>
      var left := p.(tasks := p.tasks - {t});
      if p.stopped then left else Spawn(left)
    case Stop => p.(stopped := true)
  }

  ghost function PoolRun(concurrency: nat, steps: seq<PoolStep>): Option<Pool> {
    if steps == [] then Some(Started(concurrency, concurrency))
    else
      var before, last := PoolRun(concurrency, steps[..|steps| - 1]), steps[|steps| - 1];
      if before.Some? && CanStep(before.value, last) then Some(PoolDo(before.value, last)) else None
  }

  ghost predicate PoolInv(p: Pool) {
    && (forall t :: t in p.tasks ==> t < p.next)
    && (forall job :: job in p.active ==> exists t :: t in p.tasks && p.tasks[t] == Some(job))
    && (if p.stopped then |p.tasks| <= p.concurrency else |p.tasks| == p.concurrency)
  }

  lemma {:induction false} StartedFull(concurrency: nat, n: nat)
    ensures var p := Started(concurrency, n);
            && |p.tasks| == n && p.next == n && p.active == {} && !p.stopped && p.concurrency == concurrency
            && forall t :: t in p.tasks ==> t < n
  {
    if n > 0 {
      StartedFull(concurrency, n - 1);
    }
  }

  lemma PoolStepKeeps(p: Pool, s: PoolStep)
    requires PoolInv(p) && CanStep(p, s)
    ensures PoolInv(PoolDo(p, s))
  {
    var p' := PoolDo(p, s);
    forall job | job in p'.active ensures exists t :: t in p'.tasks && p'.tasks[t] == Some(job) {
      if s.Begin? && job == s.job {
        assert p'.tasks[s.t] == Some(job);
      } else {
        var t :| t in p.tasks && p.tasks[t] == Some(job);
        assert p'.tasks[t] == Some(job);
      }
    }
    if s.Begin? || s.Finish? {
      assert p'.tasks.Keys == p.tasks.Keys;
    }
  }

  lemma {:induction false} PoolRunsKeep(concurrency: nat, steps: seq<PoolStep>)
    requires PoolRun(concurrency, steps).Some?
    ensures PoolInv(PoolRun(concurrency, steps).value) && PoolRun(concurrency, steps).value.concurrency == concurrency
  {
    if steps == [] {
      StartedFull(concurrency, concurrency);
    } else {
      PoolRunsKeep(concurrency, steps[..|steps| - 1]);
      PoolStepKeeps(PoolRun(concurrency, steps[..|steps| - 1]).value, steps[|steps| - 1]);
    }
  }

  /** Every executing job has a task of its own to point to, so there are no more of them than tasks. */
  lemma {:induction false} NoMoreJobsThanTasks(jobs: set<string>, tasks: map<nat, Option<string>>)
    requires forall job :: job in jobs ==> exists t :: t in tasks && tasks[t] == Some(job)
    ensures |jobs| <= |tasks|
    decreases jobs
  {
    if jobs != {} {
      var job :| job in jobs;
      var t :| t in tasks && tasks[t] == Some(job);
      forall other | other in jobs - {job} ensures exists u :: u in tasks - {t} && (tasks - {t})[u] == Some(other) {
        var u :| u in tasks && tasks[u] == Some(other);
        assert u in tasks - {t};
      }
      NoMoreJobsThanTasks(jobs - {job}, tasks - {t});
      assert |(tasks - {t}).Keys| == |tasks.Keys - {t}|;
    }
  }

  /** Until stop, the pool holds exactly `concurrency` tasks, each finished one replaced by one; never do more jobs
      execute at once. */
  lemma PoolStaysFull(concurrency: nat, steps: seq<PoolStep>, p: Pool)
    requires PoolRun(concurrency, steps) == Some(p)
    ensures |p.active| <= |p.tasks| <= concurrency
    ensures !p.stopped ==> |p.tasks| == concurrency
  {
    PoolRunsKeep(concurrency, steps);
    NoMoreJobsThanTasks(p.active, p.tasks);
  }
}
