/** One tick of the schedule: every due job is run up to its own limit, and the outcomes are counted. */
module JobTicks {
  import opened Wrappers
  import opened Backoff
  import opened Jobs
  import opened JobRunner
  import JobWorkers

  type Attempts = nat -> Attempt

  function RowAfter(row: Job, job: Job, attempts: Attempts, n: nat, policy: Policy): Job {
    if n == 0 then row else EndOf(RowAfter(row, job, attempts, n - 1, policy), job, false, attempts(n - 1), policy).row
  }

  /** How the k-th run of a job in a tick ends; a run that fails outside its recorder has no status. */
  function StatusAt(row: Job, job: Job, attempts: Attempts, k: nat, policy: Policy): Option<RunStatus> {
    EndOf(RowAfter(row, job, attempts, k, policy), job, false, attempts(k), policy).status
  }

  function PerJobLimit(job: Job): (n: nat)
    ensures n >= 1 && n >= job.maxRunsPerTick && (n == 1 || n == job.maxRunsPerTick)
  {
    if job.maxRunsPerTick > 1 then job.maxRunsPerTick else 1
  }

  datatype Tick = Tick(attempted: nat, completed: nat, failed: nat, skipped: nat) {
    function Runs(): nat { completed + failed + skipped }
  }

  function Count(tick: Tick, status: Option<RunStatus>): Tick {
    match status
    case None => tick.(failed := tick.failed + 1)
    case Some(Completed) => tick.(completed := tick.completed + 1)
    case Some(PartialSuccess) => tick.(completed := tick.completed + 1)
    case Some(Failed) => tick.(failed := tick.failed + 1)
    case _ => tick.(skipped := tick.skipped + 1)
  }

  function CountJob(tick: Tick, row: Job, job: Job, attempts: Attempts, n: nat, policy: Policy): Tick {
    if n == 0 then tick
    else Count(CountJob(tick, row, job, attempts, n - 1, policy), StatusAt(row, job, attempts, n - 1, policy))
  }

  function CountJobs(rows: seq<Job>, listed: seq<Job>, attempts: nat -> Attempts, attempted: nat, policy: Policy): Tick
    requires |rows| == |listed|
  {
    if rows == [] then Tick(attempted, 0, 0, 0)
    else
      var k := |rows| - 1;
      CountJob(CountJobs(rows[..k], listed[..k], attempts, attempted, policy), rows[k], listed[k], attempts(k),
               PerJobLimit(listed[k]), policy)
  }

  function TotalLimit(listed: seq<Job>): nat {
    if listed == [] then 0 else TotalLimit(listed[..|listed| - 1]) + PerJobLimit(listed[|listed| - 1])
  }

  lemma {:induction false} JobRunsAreCounted(tick: Tick, row: Job, job: Job, attempts: Attempts, n: nat, policy: Policy)
    ensures CountJob(tick, row, job, attempts, n, policy).Runs() == tick.Runs() + n
    ensures CountJob(tick, row, job, attempts, n, policy).attempted == tick.attempted
  {
    hide StatusAt;
    if n > 0 {
      JobRunsAreCounted(tick, row, job, attempts, n - 1, policy);
    }
  }

  function HowMany(row: Job, job: Job, attempts: Attempts, n: nat, policy: Policy, counts: Option<RunStatus> -> bool): nat {
    if n == 0 then 0
    else HowMany(row, job, attempts, n - 1, policy, counts)
         + if counts(StatusAt(row, job, attempts, n - 1, policy)) then 1 else 0
  }

  /**
   * The counters of a job, by what its runs reported: completed with the partly successful, failed with those that
   * failed outside the recorder, and everything that was skipped.
   */
  lemma {:induction false} CountersInWords(tick: Tick, row: Job, job: Job, attempts: Attempts, n: nat, policy: Policy)
    ensures var end := CountJob(tick, row, job, attempts, n, policy);
            && end.completed == tick.completed
               + HowMany(row, job, attempts, n, policy, (s: Option<RunStatus>) => s in {Some(Completed), Some(PartialSuccess)})
            && end.failed == tick.failed
               + HowMany(row, job, attempts, n, policy, (s: Option<RunStatus>) => s in {None, Some(Failed)})
            && end.skipped == tick.skipped
               + HowMany(row, job, attempts, n, policy, (s: Option<RunStatus>) =>
                   s in {Some(Skipped), Some(SkippedOverlap), Some(SkippedBackoff)})
  {
    hide StatusAt;
    if n > 0 {
      CountersInWords(tick, row, job, attempts, n - 1, policy);
    }
  }

  /** Every run of a tick is counted exactly once: as many as the limits of the due jobs add up to. */
  lemma {:induction false} TickRunsAreCounted(rows: seq<Job>, listed: seq<Job>, attempts: nat -> Attempts,
                                              attempted: nat, policy: Policy)
    requires |rows| == |listed|
    ensures CountJobs(rows, listed, attempts, attempted, policy).Runs() == TotalLimit(listed)
    ensures CountJobs(rows, listed, attempts, attempted, policy).attempted == attempted
    decreases |rows|
  {
    if rows != [] {
      var k := |rows| - 1;
      TickRunsAreCounted(rows[..k], listed[..k], attempts, attempted, policy);
      JobRunsAreCounted(CountJobs(rows[..k], listed[..k], attempts, attempted, policy), rows[k], listed[k], attempts(k),
                        PerJobLimit(listed[k]), policy);
    }
  }

  method RunDueJob(due: JobTable, job: Job, attempts: Attempts, policy: Policy, before: Tick) returns (tick: Tick)
    modifies due
    ensures due.row == RowAfter(old(due.row), job, attempts, PerJobLimit(job), policy)
    ensures tick == CountJob(before, old(due.row), job, attempts, PerJobLimit(job), policy)
  {
    hide EndOf;
    tick := before;
    for k := 0 to PerJobLimit(job)
      invariant due.row == RowAfter(old(due.row), job, attempts, k, policy)
      invariant tick == CountJob(before, old(due.row), job, attempts, k, policy)
    {
      var status := due.RunScheduledResearchJob(job, false, attempts(k), policy);
      match status {
        case None => tick := tick.(failed := tick.failed + 1);
        case Some(Completed) => tick := tick.(completed := tick.completed + 1);
        case Some(PartialSuccess) => tick := tick.(completed := tick.completed + 1);
        case Some(Failed) => tick := tick.(failed := tick.failed + 1);
        case Some(Skipped) => tick := tick.(skipped := tick.skipped + 1);
        case Some(SkippedOverlap) => tick := tick.(skipped := tick.skipped + 1);
        case Some(SkippedBackoff) => tick := tick.(skipped := tick.skipped + 1);
      }
    }
  }

  /** `rows` are the stored rows when the tick starts; `listed` are the rows the listing returned. */
  method RunScheduledResearchTick(due: seq<JobTable>, listed: seq<Job>, attempts: nat -> Attempts, policy: Policy,
                                  ghost rows: seq<Job>) returns (tick: Tick)
    requires |due| == |listed| == |rows|
    requires forall i, j :: 0 <= i < j < |due| ==> due[i] != due[j]
    requires forall i :: 0 <= i < |due| ==> due[i].row == rows[i]
    modifies due
    ensures tick == CountJobs(rows, listed, attempts, |due|, policy)
    ensures forall i :: 0 <= i < |due| ==>
              due[i].row == RowAfter(rows[i], listed[i], attempts(i), PerJobLimit(listed[i]), policy)
  {
    hide CountJob, RowAfter;
    tick := Tick(|due|, 0, 0, 0);
    for i := 0 to |due|
      invariant tick == CountJobs(rows[..i], listed[..i], attempts, |due|, policy)
      invariant forall j :: i <= j < |due| ==> due[j].row == rows[j]
      invariant forall j :: 0 <= j < i ==>
                  due[j].row == RowAfter(rows[j], listed[j], attempts(j), PerJobLimit(listed[j]), policy)
    {
      tick := RunDueJob(due[i], listed[i], attempts(i), policy, tick);
      assert rows[..i + 1][..i] == rows[..i] && listed[..i + 1][..i] == listed[..i];
    }
    assert rows[..|due|] == rows && listed[..|due|] == listed;
  }

  // ---------------------------------------------------------------------------------------------
  // A tick is a run of one worker

  /** The steps of one run: none when it ends before its claim. */
  function StepsOf(job: Job, attempt: Attempt): seq<JobWorkers.Step> {
    if PreCheck(job, false, attempt.startedAt).Some? || attempt.faults.early then []
    else WorkerSteps(0, false, attempt)
  }

  function TickSteps(job: Job, attempts: Attempts, n: nat): seq<JobWorkers.Step> {
    if n == 0 then [] else TickSteps(job, attempts, n - 1) + StepsOf(job, attempts(n - 1))
  }

  lemma RunsAppend(w: JobWorkers.World, steps: seq<JobWorkers.Step>, more: seq<JobWorkers.Step>, policy: Policy)
    requires |more| == 2
    ensures JobWorkers.Run(w, steps + more, policy)
            == JobWorkers.Apply(JobWorkers.Apply(JobWorkers.Run(w, steps, policy), more[0], policy), more[1], policy)
  {
    hide JobWorkers.Apply;
    var all := steps + more;
    assert all[..|steps| + 1][..|steps|] == steps && all[..|all| - 1] == all[..|steps| + 1];
    assert JobWorkers.Run(w, all[..|steps| + 1], policy)
           == JobWorkers.Apply(JobWorkers.Run(w, steps, policy), more[0], policy);
  }

  /** The runs of a job in a tick, whatever is refused and whatever fails, are steps of a single worker. */
  lemma {:induction false} TickIsWorkerRun(w: JobWorkers.World, job: Job, attempts: Attempts, n: nat, policy: Policy)
    requires w.holders == map[]
    ensures var end := JobWorkers.Run(w, TickSteps(job, attempts, n), policy);
            end.row == RowAfter(w.row, job, attempts, n, policy) && end.holders == map[]
  {
    hide EndOf, WorkerSteps, JobWorkers.Apply;
    if n > 0 {
      TickIsWorkerRun(w, job, attempts, n - 1, policy);
      var mid, attempt := JobWorkers.Run(w, TickSteps(job, attempts, n - 1), policy), attempts(n - 1);
      TwoSteps(attempt);
      if StepsOf(job, attempt) == [] {
        NoStepsNoChange(mid.row, job, attempt, policy);
        assert TickSteps(job, attempts, n) == TickSteps(job, attempts, n - 1);
      } else {
        RunsAppend(w, TickSteps(job, attempts, n - 1), WorkerSteps(0, false, attempt), policy);
        RunIsWorkerSteps(mid, 0, job, false, attempt, policy);
      }
    }
  }

  lemma TwoSteps(attempt: Attempt)
    ensures |WorkerSteps(0, false, attempt)| == 2
  {
  }

  lemma NoStepsNoChange(row: Job, job: Job, attempt: Attempt, policy: Policy)
    requires PreCheck(job, false, attempt.startedAt).Some? || attempt.faults.early
    ensures EndOf(row, job, false, attempt, policy).row == row
  {
  }

  lemma {:induction false} TickStepsAreUnattended(job: Job, attempts: Attempts, n: nat)
    ensures JobWorkers.Unattended(TickSteps(job, attempts, n))
  {
    if n > 0 {
      TickStepsAreUnattended(job, attempts, n - 1);
    }
  }

  lemma {:induction false} UnattendedIsQuiet(w: JobWorkers.World, steps: seq<JobWorkers.Step>, policy: Policy)
    requires JobWorkers.Unattended(steps)
    ensures JobWorkers.Quiet(w, steps, policy)
    decreases |steps|
  {
    if steps != [] {
      UnattendedIsQuiet(w, steps[..|steps| - 1], policy);
    }
  }

  /**
   * So a tick keeps what workers keep: after any number of runs of a job its failure count is the length of the
   * trailing block of failures that were written, and no run of the tick still holds it.
   */
  lemma TicksKeepTheCount(w: JobWorkers.World, job: Job, attempts: Attempts, n: nat, policy: Policy)
    requires w.holders == map[] && JobWorkers.Counted(w)
    ensures var end := JobWorkers.Run(w, TickSteps(job, attempts, n), policy);
            && end.row == RowAfter(w.row, job, attempts, n, policy) && end.holders == map[]
            && end.row.failures == Min(JobWorkers.TrailingFailures(end.history), I32_MAX)
  {
    hide JobWorkers.Run, JobWorkers.Quiet, TickSteps;
    TickIsWorkerRun(w, job, attempts, n, policy);
    TickStepsAreUnattended(job, attempts, n);
    UnattendedIsQuiet(w, TickSteps(job, attempts, n), policy);
    JobWorkers.QuietRunsKeepExclusion(w, TickSteps(job, attempts, n), policy);
  }

  // ---------------------------------------------------------------------------------------------
  // Failing twice ends a job's tick

  /** The tick is over before the shortest wait is: no run starts that long after another completed. */
  ghost predicate ShorterThanWait(attempts: Attempts, policy: Policy) {
    forall i: nat, j: nat :: attempts(j).startedAt - attempts(i).completedAt < Min(policy.backoffBase, policy.backoffMax)
  }

  /** A row that refuses every scheduled run of the tick. */
  ghost predicate Held(row: Job, attempts: Attempts) {
    || row.status.AutoPaused? || row.status.Running?
    || (row.status.BackingOff? && row.backoffUntil.Some? && forall j: nat :: attempts(j).startedAt < row.backoffUntil.value)
  }

  /** A run that never starts its job: skipped, or failed before its claim. */
  predicate NotStarted(status: Option<RunStatus>) {
    status.None? || status.value.Skipped? || status.value.SkippedBackoff? || status.value.SkippedOverlap?
  }

  lemma HeldRefuses(row: Job, job: Job, attempts: Attempts, k: nat, policy: Policy)
    requires Held(row, attempts)
    ensures var end := EndOf(row, job, false, attempts(k), policy);
            end.row == row && NotStarted(end.status)
  {
    hide JobCompletionUpdate, MarkAfterRun;
  }

  /** A reported failure is either in the count of a settled row, or was never written and the row is still claimed. */
  lemma FailureCountsUp(row: Job, job: Job, attempts: Attempts, k: nat, policy: Policy)
    requires policy.Valid() && row.failures >= 0
    ensures var end := EndOf(row, job, false, attempts(k), policy);
            && end.row.failures >= 0
            && (end.status == Some(Failed) ==>
                  || end.row.status.Running?
                  || (end.row.failures == Min(row.failures + 1, I32_MAX) && Settled(end.row, policy)
                      && end.row.lastRunAt == Some(attempts(k).completedAt)))
  {
    hide JobCompletionUpdate;
    if Refusal(row, job, false, attempts(k).startedAt).None? {
      CompletionSettles(TryClaim(row, attempts(k).startedAt, false).value, Recorded(attempts(k)),
                        attempts(k).completedAt, policy);
    }
  }

  lemma SettledAfterTwoIsHeld(row: Job, attempts: Attempts, k: nat, policy: Policy)
    requires policy.Valid() && Settled(row, policy) && row.failures >= 2
    requires row.lastRunAt == Some(attempts(k).completedAt) && ShorterThanWait(attempts, policy)
    ensures Held(row, attempts)
  {
    if row.status.BackingOff? {
      BackoffIsExact(2, policy.backoffBase, policy.backoffMax);
      BackoffIsExact(row.failures, policy.backoffBase, policy.backoffMax);
      BackoffNeverShrinks(2, row.failures, policy.backoffBase, policy.backoffMax);
    }
  }

  lemma {:induction false} FailuresStayNatural(row: Job, job: Job, attempts: Attempts, n: nat, policy: Policy)
    requires policy.Valid() && row.failures >= 0
    ensures RowAfter(row, job, attempts, n, policy).failures >= 0
  {
    hide EndOf;
    if n > 0 {
      FailuresStayNatural(row, job, attempts, n - 1, policy);
      FailureCountsUp(RowAfter(row, job, attempts, n - 1, policy), job, attempts, n - 1, policy);
    }
  }

  lemma {:induction false} HeldStaysHeld(row: Job, job: Job, attempts: Attempts, m: nat, n: nat, policy: Policy)
    requires m <= n && Held(RowAfter(row, job, attempts, m, policy), attempts)
    ensures RowAfter(row, job, attempts, n, policy) == RowAfter(row, job, attempts, m, policy)
    decreases n
  {
    hide EndOf;
    if m < n {
      HeldStaysHeld(row, job, attempts, m, n - 1, policy);
      HeldRefuses(RowAfter(row, job, attempts, n - 1, policy), job, attempts, n - 1, policy);
    }
  }

  /** Two reported failures in a row leave the job held. */
  lemma TwoFailuresHold(row: Job, job: Job, attempts: Attempts, i: nat, policy: Policy)
    requires policy.Valid() && row.failures >= 0 && ShorterThanWait(attempts, policy)
    requires StatusAt(row, job, attempts, i, policy) == StatusAt(row, job, attempts, i + 1, policy) == Some(Failed)
    ensures Held(RowAfter(row, job, attempts, i + 2, policy), attempts)
  {
    hide EndOf, Held, ShorterThanWait;
    var once, twice := RowAfter(row, job, attempts, i + 1, policy), RowAfter(row, job, attempts, i + 2, policy);
    FailuresStayNatural(row, job, attempts, i, policy);
    FailureCountsUp(RowAfter(row, job, attempts, i, policy), job, attempts, i, policy);
    FailureCountsUp(once, job, attempts, i + 1, policy);
    RunningIsHeld(once, attempts);
    RunningIsHeld(twice, attempts);
    if once.status.Running? {
      HeldRefuses(once, job, attempts, i + 1, policy);
    } else if !twice.status.Running? {
      SettledAfterTwoIsHeld(twice, attempts, i + 1, policy);
    }
  }

  lemma RunningIsHeld(row: Job, attempts: Attempts)
    ensures row.status.Running? ==> Held(row, attempts)
  {
  }

  /**
   * However many runs a job's limit allows, two reported failures in a row end its tick: in a tick that is shorter
   * than the shortest wait no later run starts the job, whatever fails, and the row stays as the second left it.
   */
  lemma TwoFailuresEndTheTick(row: Job, job: Job, attempts: Attempts, i: nat, k: nat, policy: Policy)
    requires policy.Valid() && row.failures >= 0 && ShorterThanWait(attempts, policy)
    requires i + 2 <= k
    ensures StatusAt(row, job, attempts, i, policy) == StatusAt(row, job, attempts, i + 1, policy) == Some(Failed) ==>
              && RowAfter(row, job, attempts, k, policy) == RowAfter(row, job, attempts, i + 2, policy)
              && NotStarted(StatusAt(row, job, attempts, k, policy))
  {
    hide EndOf, Held, ShorterThanWait, NotStarted;
    if StatusAt(row, job, attempts, i, policy) == StatusAt(row, job, attempts, i + 1, policy) == Some(Failed) {
      TwoFailuresHold(row, job, attempts, i, policy);
      HeldStaysHeld(row, job, attempts, i + 2, k, policy);
      HeldRefuses(RowAfter(row, job, attempts, k, policy), job, attempts, k, policy);
    }
  }
}
