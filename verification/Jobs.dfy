/** One scheduled research job row: claiming it, completing it, and operator control of it. */
module Jobs {
  import opened Wrappers
  import opened Backoff
  import Text

  type Time = int

  datatype JobStatus = Disabled | Enabled | Paused | Running | BackingOff | Error | AutoPaused

  datatype RunStatus = Completed | PartialSuccess | Failed | Skipped | SkippedOverlap | SkippedBackoff

  datatype Job = Job(
    enabled: bool,
    status: JobStatus,
    intervalSeconds: int,
    maxRunsPerTick: int,
    lastRunAt: Option<Time>,
    lastFailureAt: Option<Time>,
    lastFailureReason: Option<string>,
    lastSuccessAt: Option<Time>,
    nextRunAt: Option<Time>,
    backoffUntil: Option<Time>,
    failures: int,
    autoPausedReason: Option<string>)

  datatype Policy = Policy(maxFailures: int, backoffBase: int, backoffMax: int) {
    /** What reading the policy from the environment guarantees. */
    ghost predicate Valid() {
      1 <= maxFailures <= I32_MAX && Limits(backoffBase, backoffMax)
    }
  }

  datatype Execution = Execution(status: RunStatus, error: Option<string>)

  datatype Completion = Completion(
    status: JobStatus,
    nextRunAt: Option<Time>,
    backoffUntil: Option<Time>,
    failures: int,
    lastFailureAt: Option<Time>,
    lastFailureReason: Option<string>,
    lastSuccessAt: Option<Time>,
    enabled: bool,
    autoPausedReason: Option<string>)

  datatype Control =
    | Pause
    | Resume(at: Time)
    | ResetFailures(at: Time)
    | Redefine(enable: bool, interval: int, maxRuns: int, requestedNext: Option<Time>, at: Time)

  function NextRunAt(completedAt: Time, intervalSeconds: int): Option<Time> {
    if intervalSeconds <= 0 then None else Some(completedAt + intervalSeconds)
  }

  function JobCompletionUpdate(job: Job, execution: Execution, completedAt: Time, policy: Policy): Completion {
    var normalNext := NextRunAt(completedAt, job.intervalSeconds);
    if execution.status.Failed? then
      var failures := Min(job.failures + 1, I32_MAX);
      var reason := Some(execution.error.GetOr("scheduled research job failed"));
      if failures >= policy.maxFailures then
        Completion(AutoPaused, None, None, failures, Some(completedAt), reason, job.lastSuccessAt, false,
                   Some("auto-paused after " + Text.IntText(failures) + " consecutive scheduled research failures"))
      else
        var backoffUntil := BackoffUntil(completedAt, failures, policy.backoffBase, policy.backoffMax);
        Completion(if backoffUntil.Some? then BackingOff else Error,
                   if backoffUntil.Some? then backoffUntil else normalNext,
                   backoffUntil, failures, Some(completedAt), reason, job.lastSuccessAt, job.enabled, None)
    else
      Completion(if job.enabled then Enabled else Disabled, normalNext, None, 0, job.lastFailureAt, None,
                 Some(completedAt), job.enabled, None)
  }

  /** The row update a completion writes; a missing failure or success time keeps the stored one. */
  function MarkAfterRun(row: Job, completedAt: Time, c: Completion): Job {
    row.(lastRunAt := Some(completedAt),
         nextRunAt := c.nextRunAt,
         status := c.status,
         failures := c.failures,
         lastFailureAt := if c.lastFailureAt.Some? then c.lastFailureAt else row.lastFailureAt,
         lastFailureReason := c.lastFailureReason,
         lastSuccessAt := if c.lastSuccessAt.Some? then c.lastSuccessAt else row.lastSuccessAt,
         backoffUntil := c.backoffUntil,
         enabled := c.enabled,
         autoPausedReason := c.autoPausedReason)
  }

  /** The atomic claim: refused on a running row and, unless manual, on one that is not schedulable now. */
  function TryClaim(row: Job, now: Time, manual: bool): Option<Job> {
    if row.status != Running
       && (manual || row.enabled)
       && (manual || row.status in {Enabled, Error, BackingOff})
       && (manual || row.backoffUntil.None? || row.backoffUntil.value <= now)
    then Some(row.(status := Running))
    else None
  }

  function ApplyControl(row: Job, control: Control): Job {
    match control
    case Pause =>
      row.(enabled := false, status := Paused, nextRunAt := None, backoffUntil := None, autoPausedReason := None)
    case Resume(at) =>
      row.(enabled := true, status := Enabled, nextRunAt := Some(at), backoffUntil := None, autoPausedReason := None)
    case ResetFailures(at) =>
      row.(failures := 0, backoffUntil := None, autoPausedReason := None,
           status := if row.status.AutoPaused? then Paused
                     else if row.status.BackingOff? || row.status.Error? then Enabled
                     else row.status,
           enabled := if row.status.AutoPaused? then false else row.enabled,
           nextRunAt := if (row.status.BackingOff? || row.status.Error?) && row.enabled then Some(at)
                        else row.nextRunAt)
    case Redefine(enable, interval, maxRuns, requestedNext, at) =>
      row.(enabled := enable, intervalSeconds := interval, maxRunsPerTick := maxRuns,
           nextRunAt := if requestedNext.None? && enable then Some(at) else requestedNext,
           status := if enable then Enabled else Disabled,
           backoffUntil := None, failures := 0, lastFailureAt := None, lastFailureReason := None,
           autoPausedReason := None)
  }

  /** What a row that is not running says about its recent failures. */
  ghost predicate Settled(row: Job, policy: Policy) {
    match row.status
    case AutoPaused =>
      && !row.enabled && row.nextRunAt.None? && row.backoffUntil.None?
      && row.failures >= policy.maxFailures && row.autoPausedReason.Some?
    case BackingOff =>
      && 2 <= row.failures < policy.maxFailures && row.lastRunAt.Some?
      && row.backoffUntil == Some(row.lastRunAt.value + IdealWait(row.failures, policy.backoffBase, policy.backoffMax))
      && row.nextRunAt == row.backoffUntil
    case Error => row.failures == 1 < policy.maxFailures && row.backoffUntil.None?
    case Enabled => row.enabled && row.failures == 0 && row.backoffUntil.None?
    case Disabled => !row.enabled && row.failures == 0 && row.backoffUntil.None?
    case _ => false
  }

  /** When a row at rest runs next: its interval after its last run, if it has one, unless it backs off or is paused. */
  ghost predicate Due(row: Job) {
    match row.status
    case Enabled => DueAtInterval(row)
    case Disabled => DueAtInterval(row)
    case Error => DueAtInterval(row)
    case BackingOff => row.nextRunAt.Some? && row.nextRunAt == row.backoffUntil
    case AutoPaused => row.nextRunAt.None?
    case _ => false
  }

  ghost predicate DueAtInterval(row: Job) {
    && row.lastRunAt.Some?
    && row.nextRunAt == if row.intervalSeconds > 0 then Some(row.lastRunAt.value + row.intervalSeconds) else None
  }

  /** Completing any claimed job settles the row, says when it is due, and can disable it but never enable it. */
  lemma CompletionSettles(job: Job, execution: Execution, completedAt: Time, policy: Policy)
    requires policy.Valid() && job.failures >= 0
    ensures var row := MarkAfterRun(job, completedAt, JobCompletionUpdate(job, execution, completedAt, policy));
            && Settled(row, policy) && Due(row) && row.lastRunAt == Some(completedAt)
            && (row.enabled <==> job.enabled && !row.status.AutoPaused?)
            && row.failures == (if execution.status.Failed? then Min(job.failures + 1, I32_MAX) else 0)
            && (row.status.AutoPaused? <==> row.failures >= policy.maxFailures)
            && (execution.status.Failed? ==> row.lastFailureAt == Some(completedAt))
            && (!execution.status.Failed? ==> row.lastSuccessAt == Some(completedAt))
            && (execution.status.Failed? ==> row.lastSuccessAt == job.lastSuccessAt)
            && (!execution.status.Failed? ==> row.lastFailureAt == job.lastFailureAt)
            && row.lastFailureReason
               == (if !execution.status.Failed? then None
                   else if execution.error.Some? then execution.error else Some("scheduled research job failed"))
            && row.autoPausedReason
               == (if row.status.AutoPaused?
                   then Some("auto-paused after " + Text.IntText(row.failures) + " consecutive scheduled research failures")
                   else None)
            && row.intervalSeconds == job.intervalSeconds && row.maxRunsPerTick == job.maxRunsPerTick
  {
    var failures := Min(job.failures + 1, I32_MAX);
    if execution.status.Failed? && 2 <= failures {
      BackoffIsExact(failures, policy.backoffBase, policy.backoffMax);
    }
  }

  // ---------------------------------------------------------------------------------------------
  // What the schedule lists and claims

  /** The rows the schedule lists. */
  predicate Listed(row: Job, now: Time) {
    && row.enabled && row.status in {Enabled, Error, BackingOff}
    && row.nextRunAt.Some? && row.nextRunAt.value <= now
    && (row.backoffUntil.None? || row.backoffUntil.value <= now)
  }

  /**
   * What is listed can be claimed at once, and a claim changes nothing but the status. A row that backs off is listed
   * from the end of its wait on.
   */
  lemma ListedRowIsClaimed(row: Job, now: Time)
    ensures Listed(row, now) ==> TryClaim(row, now, false).Some?
    ensures forall manual :: TryClaim(row, now, manual).Some? ==>
              TryClaim(row, now, manual).value == row.(status := Running) && !row.status.Running?
    ensures row.status.BackingOff? && row.backoffUntil.Some? && row.nextRunAt == row.backoffUntil ==>
              (Listed(row, now) <==> row.enabled && now >= row.backoffUntil.value)
  {
  }

  /** By hand any row that is not running can be claimed; by the schedule none that is switched off, held or waiting. */
  lemma WhoMayClaim(row: Job, now: Time)
    ensures TryClaim(row, now, true).Some? <==> !row.status.Running?
    ensures TryClaim(row, now, false).None?
            <==> || !row.enabled
                 || (row.backoffUntil.Some? && now < row.backoffUntil.value)
                 || match row.status
                    case Running => true
                    case Paused => true
                    case AutoPaused => true
                    case Disabled => true
                    case _ => false
  {
  }

  /** A paused row is neither listed nor claimed by the schedule at any time; its count and its pace stay. */
  lemma PauseHolds(row: Job, now: Time)
    ensures var p := ApplyControl(row, Pause);
            && p.status.Paused? && !Listed(p, now) && TryClaim(p, now, false).None?
            && p.nextRunAt.None? && p.backoffUntil.None? && p.autoPausedReason.None?
            && p == row.(enabled := false, status := p.status, nextRunAt := p.nextRunAt,
                         backoffUntil := p.backoffUntil, autoPausedReason := p.autoPausedReason)
  {
  }

  /** A resumed row is listed from then on, with the count it had. */
  lemma ResumeFrees(row: Job, at: Time, now: Time)
    ensures var r := ApplyControl(row, Resume(at));
            && (Listed(r, now) <==> now >= at) && TryClaim(r, now, false).Some?
            && r.status.Enabled? && r.autoPausedReason.None?
            && r == row.(enabled := true, status := r.status, nextRunAt := Some(at), backoffUntil := None,
                         autoPausedReason := r.autoPausedReason)
  {
  }

  /**
   * A reset clears the count and any wait. A row that was waiting or in error is listed again from then on if it is
   * switched on; an auto-paused one stays off until it is resumed; any other keeps its status and its next run.
   */
  lemma ResetClears(row: Job, at: Time, now: Time)
    ensures var r := ApplyControl(row, ResetFailures(at));
            && r.failures == 0 && r.backoffUntil.None? && r.autoPausedReason.None?
            && (row.status.AutoPaused? ==> r.status.Paused? && !r.enabled && r.nextRunAt == row.nextRunAt)
            && (row.status.BackingOff? || row.status.Error? ==>
                  && r.status.Enabled? && r.enabled == row.enabled
                  && (Listed(r, now) <==> row.enabled && now >= at)
                  && r.nextRunAt == (if row.enabled then Some(at) else row.nextRunAt))
            && (!row.status.AutoPaused? && !row.status.BackingOff? && !row.status.Error? ==>
                  r.status == row.status && r.enabled == row.enabled && r.nextRunAt == row.nextRunAt)
            && r == row.(failures := r.failures, backoffUntil := r.backoffUntil, autoPausedReason := r.autoPausedReason,
                         status := r.status, enabled := r.enabled, nextRunAt := r.nextRunAt)
  {
  }

  /** A new definition starts afresh: listed from its requested time, or at once, exactly when it is enabled. */
  lemma RedefineReplaces(row: Job, enable: bool, interval: int, maxRuns: int, requested: Option<Time>, at: Time, now: Time)
    ensures var r := ApplyControl(row, Redefine(enable, interval, maxRuns, requested, at));
            && (Listed(r, now) <==> enable && now >= (if requested.Some? then requested.value else at))
            && r.nextRunAt == (if requested.Some? then requested else if enable then Some(at) else None)
            && r.status == (if enable then Enabled else Disabled)
            && r.enabled == enable && r.intervalSeconds == interval && r.maxRunsPerTick == maxRuns
            && r.failures == 0 && r.backoffUntil.None? && r.autoPausedReason.None?
            && r.lastFailureAt.None? && r.lastFailureReason.None?
            && r.lastRunAt == row.lastRunAt && r.lastSuccessAt == row.lastSuccessAt
  {
  }
}
