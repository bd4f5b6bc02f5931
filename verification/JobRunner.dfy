/** The job table as one runner uses it: the pre-checks, the claim, the execution and the completion of a run. */
module JobRunner {
  import opened Wrappers
  import opened Backoff
  import opened Jobs
  import JobWorkers
  import Text

  /** Which database calls of a run fail: before or at the claim, after it, at the completion, or when reading back. */
  datatype Faults = Faults(early: bool, claimed: bool, completion: bool, late: bool)

  /** What the outside contributes to one run: its clock readings, what the job did, and whether it left the trading tables alone. */
  datatype Attempt = Attempt(startedAt: Time, execution: Execution, isolated: bool, completedAt: Time, faults: Faults)

  /** How a run ends: the stored row, what it returns unless it fails, and the run rows it records. */
  datatype RunEnd = RunEnd(row: Job, status: Option<RunStatus>, recorded: seq<RunStatus>)

  const ISOLATION_ERROR := "execution table counts changed during scheduled research job"

  /** The execution as it is recorded: a broken isolation makes any run a failed one. */
  function Recorded(attempt: Attempt): Execution {
    if attempt.isolated then attempt.execution else Execution(Failed, Some(ISOLATION_ERROR))
  }

  function PreCheck(job: Job, manual: bool, startedAt: Time): Option<RunStatus> {
    if !manual && (!job.enabled || job.status.Paused?) then Some(Skipped)
    else if !manual && job.backoffUntil.Some? && job.backoffUntil.value > startedAt then Some(SkippedBackoff)
    else None
  }

  function RefusalStatus(row: Job): RunStatus {
    if row.status.Running? then SkippedOverlap
    else if row.status.BackingOff? then SkippedBackoff
    else Skipped
  }

  /** How a run ends when it never starts. */
  function Refusal(row: Job, job: Job, manual: bool, startedAt: Time): Option<RunStatus> {
    if PreCheck(job, manual, startedAt).Some? then PreCheck(job, manual, startedAt)
    else if TryClaim(row, startedAt, manual).None? then Some(RefusalStatus(row))
    else None
  }

  function CompletedRow(row: Job, attempt: Attempt, policy: Policy): Job {
    MarkAfterRun(row, attempt.completedAt, JobCompletionUpdate(row, Recorded(attempt), attempt.completedAt, policy))
  }

  /**
   * The end of any run. A backoff is reported without touching the database. A fault after the claim leaves the row
   * claimed, and one at the completion does so unnoticed.
   */
  function EndOf(row: Job, job: Job, manual: bool, attempt: Attempt, policy: Policy): RunEnd {
    var faults := attempt.faults;
    var refusal := Refusal(row, job, manual, attempt.startedAt);
    if PreCheck(job, manual, attempt.startedAt) == Some(SkippedBackoff) then RunEnd(row, Some(SkippedBackoff), [])
    else if faults.early then RunEnd(row, None, [])
    else if refusal == Some(SkippedBackoff) then RunEnd(row, refusal, [])
    else if refusal.Some? then RunEnd(row, if faults.late then None else refusal, [refusal.value])
    else
      var claimed := TryClaim(row, attempt.startedAt, manual).value;
      var status := Recorded(attempt).status;
      if faults.claimed then RunEnd(claimed, None, [])
      else RunEnd(if faults.completion then claimed else CompletedRow(claimed, attempt, policy),
                  if faults.late then None else Some(status), [status])
  }

  /**
   * What a run reports when no call fails, by what its listing and the stored row said. A run by hand is only ever
   * refused by one in progress.
   */
  lemma ReportInWords(row: Job, job: Job, manual: bool, attempt: Attempt, policy: Policy)
    requires attempt.faults == Faults(false, false, false, false)
    ensures var end := EndOf(row, job, manual, attempt, policy);
            var switchedOff := !manual && (!job.enabled || job.status.Paused?);
            var waiting := !manual && job.backoffUntil.Some? && attempt.startedAt < job.backoffUntil.value;
            && end.status.Some?
            && (switchedOff ==> end.status == Some(Skipped) && end.recorded == [Skipped] && end.row == row)
            && (!switchedOff && waiting ==> end.status == Some(SkippedBackoff) && end.recorded == [] && end.row == row)
            && (!switchedOff && !waiting && TryClaim(row, attempt.startedAt, manual).None? ==>
                  && end.row == row
                  && end.status == Some(if row.status.Running? then SkippedOverlap
                                        else if row.status.BackingOff? then SkippedBackoff else Skipped)
                  && end.recorded == (if row.status.BackingOff? then [] else [end.status.value]))
            && (!switchedOff && !waiting && TryClaim(row, attempt.startedAt, manual).Some? ==>
                  && end.recorded == [end.status.value]
                  && end.status == Some(if attempt.isolated then attempt.execution.status else Failed)
                  && (!attempt.isolated ==>
                        end.row.lastFailureReason
                        == Some("execution table counts changed during scheduled research job"))
                  && (attempt.isolated && attempt.execution.status.Failed? && attempt.execution.error.Some? ==>
                        end.row.lastFailureReason == attempt.execution.error))
            && (manual ==> (end.status == Some(SkippedOverlap) && end.row == row <== row.status.Running?))
  {
    hide BackoffUntil, Text.IntText;
  }

  class JobTable {
    var row: Job
    var runs: seq<RunStatus>

    constructor (row: Job)
      ensures this.row == row && runs == []
    {
      this.row, runs := row, [];
    }

    /** `job` is the row as it was listed, which may be older than the stored row. */
    method RunScheduledResearchJob(job: Job, manual: bool, attempt: Attempt, policy: Policy)
      returns (status: Option<RunStatus>)
      modifies this
      ensures var end := EndOf(old(row), job, manual, attempt, policy);
              row == end.row && status == end.status && runs == old(runs) + end.recorded
    {
      hide JobCompletionUpdate, MarkAfterRun;
      var faults := attempt.faults;
      if !manual && (!job.enabled || job.status.Paused?) {
        status := RecordSkip(Skipped, faults);
        return;
      }
      if !manual && job.backoffUntil.Some? && job.backoffUntil.value > attempt.startedAt {
        return Some(SkippedBackoff);
      }
      if faults.early {
        return None;
      }
      var claim := TryClaim(row, attempt.startedAt, manual);
      if claim.None? {
        status := RecordSkip(if row.status.Running? then SkippedOverlap
                             else if row.status.BackingOff? then SkippedBackoff
                             else Skipped, faults);
        return;
      }
      row := claim.value;
      if faults.claimed {
        return None;
      }
      var execution := attempt.execution;
      if !attempt.isolated {
        execution := execution.(status := Failed, error := Some(ISOLATION_ERROR));
      }
      runs := runs + [execution.status];
      var completion := JobCompletionUpdate(claim.value, execution, attempt.completedAt, policy);
      if !faults.completion {
        row := MarkAfterRun(row, attempt.completedAt, completion);
      }
      status := if faults.late then None else Some(execution.status);
    }

    /** A skip that is a backoff leaves no run row. */
    method RecordSkip(skip: RunStatus, faults: Faults) returns (status: Option<RunStatus>)
      modifies this`runs
      ensures runs == if skip.SkippedBackoff? || faults.early then old(runs) else old(runs) + [skip]
      ensures status == if !skip.SkippedBackoff? && (faults.early || faults.late) then None else Some(skip)
    {
      if skip.SkippedBackoff? {
        return Some(skip);
      }
      if faults.early {
        return None;
      }
      runs := runs + [skip];
      status := if faults.late then None else Some(skip);
    }
  }

  /** The worker steps a run amounts to: a claim, and then a completion, or a death when a fault keeps it from one. */
  function WorkerSteps(worker: JobWorkers.Worker, manual: bool, attempt: Attempt): seq<JobWorkers.Step> {
    [JobWorkers.Claim(worker, attempt.startedAt, manual),
     if attempt.faults.claimed || attempt.faults.completion then JobWorkers.Crash(worker)
     else JobWorkers.Complete(worker, Recorded(attempt), attempt.completedAt)]
  }

  /** A run that gets as far as its claim is those steps with nothing in between, whether it gets the claim or not. */
  lemma RunIsWorkerSteps(w: JobWorkers.World, worker: JobWorkers.Worker, job: Job, manual: bool, attempt: Attempt,
                         policy: Policy)
    requires w.holders == map[] && PreCheck(job, manual, attempt.startedAt).None? && !attempt.faults.early
    ensures var steps := WorkerSteps(worker, manual, attempt);
            var end := JobWorkers.Apply(JobWorkers.Apply(w, steps[0], policy), steps[1], policy);
            end.row == EndOf(w.row, job, manual, attempt, policy).row && end.holders == map[]
  {
    hide JobCompletionUpdate, MarkAfterRun;
  }

  /**
   * One scheduled listing can run a job several times in a row, and a first failure does not delay the second
   * attempt. After two failures the claim itself refuses a third until the first backoff wait is over, or for good
   * when two failures already pause the job.
   */
  lemma ThirdAttemptWaitsAfterTwoFailures(row: Job, first: Attempt, second: Attempt, thirdStart: Time, policy: Policy)
    requires policy.Valid() && row.failures == 0
    requires TryClaim(row, first.startedAt, false).Some?
    requires Recorded(first).status.Failed? && Recorded(second).status.Failed?
    ensures var claimed := TryClaim(row, first.startedAt, false).value;
            var once := MarkAfterRun(claimed, first.completedAt,
                                     JobCompletionUpdate(claimed, Recorded(first), first.completedAt, policy));
            match TryClaim(once, second.startedAt, false)
            case None => policy.maxFailures == 1
            case Some(again) =>
              var twice := MarkAfterRun(again, second.completedAt,
                                        JobCompletionUpdate(again, Recorded(second), second.completedAt, policy));
              && policy.maxFailures >= 2
              && (TryClaim(twice, thirdStart, false).Some?
                  <==> policy.maxFailures > 2
                       && thirdStart - second.completedAt >= Min(policy.backoffBase, policy.backoffMax))
  {
    var claimed := TryClaim(row, first.startedAt, false).value;
    CompletionSettles(claimed, Recorded(first), first.completedAt, policy);
    var once := MarkAfterRun(claimed, first.completedAt,
                             JobCompletionUpdate(claimed, Recorded(first), first.completedAt, policy));
    var again := TryClaim(once, second.startedAt, false);
    if again.Some? {
      CompletionSettles(again.value, Recorded(second), second.completedAt, policy);
    }
  }
}
