/**
 * Several workers over one job row. A worker holds the snapshot its claim returned until it completes, or dies and
 * leaves the row RUNNING. Operators may pause, resume, reset or redefine the row at any time.
 */
module JobWorkers {
  import opened Wrappers
  import opened Backoff
  import opened Jobs
  import Text

  type Worker = nat

  datatype Event = Ran(status: RunStatus) | WasReset

  datatype World = World(row: Job, holders: map<Worker, Job>, history: seq<Event>)

  datatype Step =
    | Claim(worker: Worker, now: Time, manual: bool)
    | Complete(worker: Worker, execution: Execution, at: Time)
    | Crash(worker: Worker)
    | Operate(control: Control)

  function TrailingFailures(history: seq<Event>): nat {
    if history != [] && history[|history| - 1] == Ran(Failed) then 1 + TrailingFailures(history[..|history| - 1])
    else 0
  }

  function Apply(w: World, step: Step, policy: Policy): World {
    match step
    case Claim(worker, now, manual) =>
      (match TryClaim(w.row, now, manual)
       case None => w
       case Some(claimed) =>
         if worker in w.holders then w else w.(row := claimed, holders := w.holders[worker := claimed]))
    case Complete(worker, execution, at) =>
      if worker !in w.holders then w
      else World(MarkAfterRun(w.row, at, JobCompletionUpdate(w.holders[worker], execution, at, policy)),
                 w.holders - {worker}, w.history + [Ran(execution.status)])
    case Crash(worker) => w.(holders := w.holders - {worker})
    case Operate(control) =>
      w.(row := ApplyControl(w.row, control),
         history := if control.ResetFailures? || control.Redefine? then w.history + [WasReset] else w.history)
  }

  function Run(w: World, steps: seq<Step>, policy: Policy): World {
    if steps == [] then w else Apply(Run(w, steps[..|steps| - 1], policy), steps[|steps| - 1], policy)
  }

  /** Operators act on the row only while no run is in progress. */
  predicate Quiet(w: World, steps: seq<Step>, policy: Policy) {
    steps == [] ||
    var before := steps[..|steps| - 1];
    && Quiet(w, before, policy)
    && (steps[|steps| - 1].Operate? ==> !Run(w, before, policy).row.status.Running?)
  }

  predicate Unattended(steps: seq<Step>) {
    forall i :: 0 <= i < |steps| ==> !steps[i].Operate?
  }

  /** Unattended, and without runs started by hand. */
  predicate Scheduled(steps: seq<Step>) {
    forall i :: 0 <= i < |steps| ==> !steps[i].Operate? && !(steps[i].Claim? && steps[i].manual)
  }

  ghost predicate Initial(w: World) {
    w.holders == map[] && w.history == [] && w.row.failures == 0
  }

  ghost predicate Claimable(w: World) {
    Initial(w) && w.row.status.Enabled? && w.row.enabled && w.row.backoffUntil.None?
  }

  // ---------------------------------------------------------------------------------------------
  // Exclusion, and no lost update

  ghost predicate Exclusive(w: World) {
    && (forall a, b :: a in w.holders && b in w.holders ==> a == b)
    && (forall a :: a in w.holders ==> w.row.status.Running? && w.holders[a] == w.row)
  }

  ghost predicate Counted(w: World) {
    w.row.failures == Min(TrailingFailures(w.history), I32_MAX)
  }

  lemma TrailingExtends(history: seq<Event>, event: Event)
    ensures TrailingFailures(history + [event]) == if event == Ran(Failed) then 1 + TrailingFailures(history) else 0
  {
    assert (history + [event])[..|history|] == history;
  }

  /** What a completion makes of the count in its snapshot. */
  lemma CompletionCounts(row: Job, snapshot: Job, execution: Execution, at: Time, policy: Policy)
    ensures MarkAfterRun(row, at, JobCompletionUpdate(snapshot, execution, at, policy)).failures
            == if execution.status.Failed? then Min(snapshot.failures + 1, I32_MAX) else 0
  {
    hide BackoffUntil, Text.IntText;
  }

  lemma CompleteKeepsExclusion(w: World, worker: Worker, execution: Execution, at: Time, policy: Policy)
    requires Exclusive(w) && Counted(w) && worker in w.holders
    ensures var next := Apply(w, Complete(worker, execution, at), policy);
            Exclusive(next) && Counted(next)
  {
    hide JobCompletionUpdate, MarkAfterRun, TrailingFailures;
    CompletionCounts(w.row, w.holders[worker], execution, at, policy);
    TrailingExtends(w.history, Ran(execution.status));
  }

  lemma StepKeepsExclusion(w: World, step: Step, policy: Policy)
    requires Exclusive(w) && Counted(w)
    requires step.Operate? ==> !w.row.status.Running?
    ensures Exclusive(Apply(w, step, policy)) && Counted(Apply(w, step, policy))
  {
    hide JobCompletionUpdate, MarkAfterRun, TrailingFailures;
    match step
    case Claim(_, _, _) =>
    case Complete(worker, execution, at) =>
      if worker in w.holders {
        CompleteKeepsExclusion(w, worker, execution, at, policy);
      }
    case Crash(_) =>
    case Operate(_) => TrailingExtends(w.history, WasReset);
  }

  lemma {:induction false} QuietRunsKeepExclusion(w: World, steps: seq<Step>, policy: Policy)
    requires Exclusive(w) && Counted(w) && Quiet(w, steps, policy)
    ensures Exclusive(Run(w, steps, policy)) && Counted(Run(w, steps, policy))
    decreases |steps|
  {
    hide Apply, Exclusive, Counted;
    if steps != [] {
      var before := steps[..|steps| - 1];
      QuietRunsKeepExclusion(w, before, policy);
      StepKeepsExclusion(Run(w, before, policy), steps[|steps| - 1], policy);
    }
  }

  /**
   * While operators leave running rows alone, at most one worker is ever between claim and completion, its snapshot
   * is the row itself, and the failure count is the length of the trailing block of failures.
   */
  lemma AtMostOneWorker(w: World, steps: seq<Step>, policy: Policy)
    requires Initial(w) && Quiet(w, steps, policy)
    ensures Exclusive(Run(w, steps, policy)) && Counted(Run(w, steps, policy))
  {
    hide Quiet, Run;
    QuietRunsKeepExclusion(w, steps, policy);
  }

  /** A completion computed from the claimed snapshot is the one the current row would give: nothing is overwritten. */
  lemma NoLostUpdate(w: World, steps: seq<Step>, worker: Worker, execution: Execution, at: Time, policy: Policy)
    requires Initial(w) && Quiet(w, steps, policy)
    requires worker in Run(w, steps, policy).holders
    ensures var before := Run(w, steps, policy);
            var after := Apply(before, Complete(worker, execution, at), policy);
            && after.row == MarkAfterRun(before.row, at, JobCompletionUpdate(before.row, execution, at, policy))
            && after.row.failures == Min(TrailingFailures(before.history + [Ran(execution.status)]), I32_MAX)
            && after.holders == map[]
  {
    AtMostOneWorker(w, steps, policy);
    var before := Run(w, steps, policy);
    StepKeepsExclusion(before, Complete(worker, execution, at), policy);
  }

  /**
   * What one operator action on a running row lets a second worker do: claim it too after a resume or a new enabled
   * definition, and by hand after a pause or any new definition as well; a reset never frees it.
   */
  lemma ControlOfRunningRowOverlaps(row: Job, control: Control, now: Time, manual: bool)
    requires row.status.Running?
    ensures TryClaim(ApplyControl(row, control), now, manual).Some?
            <==> control.Resume? || (control.Pause? && manual) || (control.Redefine? && (manual || control.enable))
  {
  }

  /** Resuming a running job: two workers hold it, both fail, and one of the two failures is lost. */
  lemma ResumeOfRunningRowLosesAFailure(w: World, policy: Policy)
    requires Claimable(w)
    ensures var claimed := Apply(w, Claim(1, 0, false), policy);
            var two := Apply(Apply(claimed, Operate(Resume(0)), policy), Claim(2, 0, false), policy);
            var failed := Execution(Failed, None);
            var end := Apply(Apply(two, Complete(1, failed, 1), policy), Complete(2, failed, 1), policy);
            && two.holders.Keys == {1, 2}
            && TrailingFailures(end.history) == 2
            && end.row.failures == 1
  {
    var claimed := Apply(w, Claim(1, 0, false), policy);
    var two := Apply(Apply(claimed, Operate(Resume(0)), policy), Claim(2, 0, false), policy);
    assert two.holders.Keys == {1, 2} && two.holders[1].failures == two.holders[2].failures == 0;
    TwoHoldersCountOnce(two, policy);
  }

  lemma TwoHoldersCountOnce(w: World, policy: Policy)
    requires w.history == [] && w.holders.Keys == {1, 2}
    requires w.holders[1].failures == w.holders[2].failures == 0
    ensures var failed := Execution(Failed, None);
            var end := Apply(Apply(w, Complete(1, failed, 1), policy), Complete(2, failed, 1), policy);
            TrailingFailures(end.history) == 2 && end.row.failures == 1
  {
    hide JobCompletionUpdate, MarkAfterRun, TrailingFailures;
    var failed := Execution(Failed, None);
    var one := Apply(w, Complete(1, failed, 1), policy);
    CompletionCounts(one.row, w.holders[2], failed, 1, policy);
    NothingTrails();
    TrailingExtends([], Ran(Failed));
    TrailingExtends([Ran(Failed)], Ran(Failed));
    assert [] + [Ran(Failed)] == [Ran(Failed)];
  }

  lemma NothingTrails()
    ensures TrailingFailures([]) == 0
  {
  }

  // ---------------------------------------------------------------------------------------------
  // What a completion overwrites when the row changed since its claim

  /** The row a completion writes from a snapshot. */
  function Written(row: Job, snapshot: Job, execution: Execution, at: Time, policy: Policy): Job {
    MarkAfterRun(row, at, JobCompletionUpdate(snapshot, execution, at, policy))
  }

  function CountAfter(job: Job): int { Min(job.failures + 1, I32_MAX) }

  /** The execution is a failure that pauses the job. */
  predicate Pauses(job: Job, execution: Execution, policy: Policy) {
    execution.status.Failed? && CountAfter(job) >= policy.maxFailures
  }

  predicate SamePace(a: Job, b: Job) {
    a.intervalSeconds == b.intervalSeconds || (a.intervalSeconds <= 0 && b.intervalSeconds <= 0)
  }

  /** A stored time that replaces a different one. */
  predicate Replaces(stale: Option<Time>, current: Option<Time>) { stale.Some? && stale != current }

  /** What a completion reads from its snapshot, and the row says otherwise. */
  predicate Outdated(snapshot: Job, row: Job, execution: Execution, policy: Policy) {
    if execution.status.Failed? then
      || CountAfter(snapshot) != CountAfter(row)
      || Replaces(snapshot.lastSuccessAt, row.lastSuccessAt)
      || (!Pauses(row, execution, policy)
          && (snapshot.enabled != row.enabled || (CountAfter(row) < 2 && !SamePace(snapshot, row))))
    else
      || snapshot.enabled != row.enabled || !SamePace(snapshot, row)
      || Replaces(snapshot.lastFailureAt, row.lastFailureAt)
  }

  lemma PauseOverwritesIff(row: Job, snapshot: Job, execution: Execution, at: Time, policy: Policy)
    requires Pauses(snapshot, execution, policy)
    ensures Written(row, snapshot, execution, at, policy) != Written(row, row, execution, at, policy)
            <==> Outdated(snapshot, row, execution, policy)
  {
    hide BackoffUntil, Text.IntText;
    if CountAfter(snapshot) != CountAfter(row) {
      CompletionCounts(row, snapshot, execution, at, policy);
      CompletionCounts(row, row, execution, at, policy);
    }
  }

  lemma FailureOverwritesIff(row: Job, snapshot: Job, execution: Execution, at: Time, policy: Policy)
    requires execution.status.Failed? && !Pauses(snapshot, execution, policy)
    ensures Written(row, snapshot, execution, at, policy) != Written(row, row, execution, at, policy)
            <==> Outdated(snapshot, row, execution, policy)
  {
    if CountAfter(snapshot) != CountAfter(row) {
      hide JobCompletionUpdate, MarkAfterRun;
      CompletionCounts(row, snapshot, execution, at, policy);
      CompletionCounts(row, row, execution, at, policy);
    } else {
      hide BackoffSeconds, Text.IntText;
      FirstFailureDoesNotWait(policy);
    }
  }

  lemma SuccessOverwritesIff(row: Job, snapshot: Job, execution: Execution, at: Time, policy: Policy)
    requires !execution.status.Failed?
    ensures Written(row, snapshot, execution, at, policy) != Written(row, row, execution, at, policy)
            <==> Outdated(snapshot, row, execution, policy)
  {
    hide BackoffUntil, Text.IntText;
  }

  /**
   * A completion overwrites something exactly when its snapshot is outdated in a field the outcome depends on. This
   * holds for any row and any snapshot, so for every world, however many workers and operators changed the row since.
   */
  lemma LostUpdateIff(w: World, worker: Worker, execution: Execution, at: Time, policy: Policy)
    requires worker in w.holders
    ensures var end := Apply(w, Complete(worker, execution, at), policy);
            end.row != Written(w.row, w.row, execution, at, policy)
            <==> Outdated(w.holders[worker], w.row, execution, policy)
  {
    hide JobCompletionUpdate, MarkAfterRun, Outdated;
    if Pauses(w.holders[worker], execution, policy) {
      PauseOverwritesIff(w.row, w.holders[worker], execution, at, policy);
    } else if execution.status.Failed? {
      FailureOverwritesIff(w.row, w.holders[worker], execution, at, policy);
    } else {
      SuccessOverwritesIff(w.row, w.holders[worker], execution, at, policy);
    }
  }

  lemma FirstFailureDoesNotWait(policy: Policy)
    ensures forall failures :: BackoffSeconds(failures, policy.backoffBase, policy.backoffMax).None? <==> failures < 2
  {
  }

  /** Which operator action on a running row is overwritten by the completion of the run in progress. */
  predicate Overwritten(row: Job, control: Control, execution: Execution, policy: Policy) {
    match control
    case Pause => row.enabled && !Pauses(row, execution, policy)
    case Resume(_) => !row.enabled && !Pauses(row, execution, policy)
    case ResetFailures(_) => execution.status.Failed? && row.failures != 0
    case Redefine(enable, interval, _, _, _) =>
      var moved := enable != row.enabled || !SamePace(row, row.(intervalSeconds := interval));
      if execution.status.Failed? then row.failures != 0 || (!Pauses(row, execution, policy) && moved)
      else moved || row.lastFailureAt.Some?
  }

  /**
   * One worker holds the job and an operator acts on the row. The completion differs from that of the controlled row
   * exactly in these cases: it undoes a pause or a resume that changed the switch unless the failure pauses the job
   * anyway, counts on from failures that were reset, and replaces a new definition that moved the switch, the pace,
   * the count or the last failure.
   */
  lemma ControlIsOverwrittenIff(w: World, worker: Worker, control: Control, execution: Execution, at: Time,
                                policy: Policy)
    requires w.row.status.Running? && w.holders == map[worker := w.row] && w.row.failures >= 0
    ensures var controlled := Apply(w, Operate(control), policy);
            var end := Apply(controlled, Complete(worker, execution, at), policy);
            end.row != Written(controlled.row, controlled.row, execution, at, policy)
            <==> Overwritten(w.row, control, execution, policy)
  {
    hide Written, JobCompletionUpdate, MarkAfterRun;
    LostUpdateIff(Apply(w, Operate(control), policy), worker, execution, at, policy);
  }

  /**
   * A completion enables a row the operator has just disabled exactly when the job was enabled at its claim and the
   * run does not pause it.
   */
  lemma DisabledRowIsEnabledIff(w: World, worker: Worker, control: Control, execution: Execution, at: Time,
                                policy: Policy)
    requires w.row.status.Running? && w.holders == map[worker := w.row]
    ensures var controlled := Apply(w, Operate(control), policy);
            var end := Apply(controlled, Complete(worker, execution, at), policy);
            !controlled.row.enabled && end.row.enabled
            <==> (control.Pause? || (control.Redefine? && !control.enable))
                 && w.row.enabled && !Pauses(w.row, execution, policy)
  {
  }

  /** Pausing a running job: the run completes and the job is enabled again, due at its next interval. */
  lemma PauseOfRunningRowIsUndone(w: World, at: Time, policy: Policy)
    requires Claimable(w)
    ensures var paused := Apply(Apply(w, Claim(1, 0, false), policy), Operate(Pause), policy);
            var end := Apply(paused, Complete(1, Execution(Completed, None), at), policy);
            && paused.row.status.Paused? && !paused.row.enabled
            && end.row.status.Enabled? && end.row.enabled
            && end.row.nextRunAt == if w.row.intervalSeconds > 0 then Some(at + w.row.intervalSeconds) else None
  {
  }

  lemma FirstFailureStaysClaimable(row: Job, snapshot: Job, at: Time, policy: Policy)
    requires snapshot.failures == 0 && snapshot.enabled && policy.maxFailures > 1
    ensures TryClaim(Written(row, snapshot, Execution(Failed, None), at, policy), at, false).Some?
  {
    hide BackoffSeconds, Text.IntText;
    FirstFailureDoesNotWait(policy);
  }

  /** Resetting the failures of a running job: its next failure is counted as the second, not the first. */
  lemma ResetOfRunningRowIsLost(w: World, policy: Policy)
    requires policy.maxFailures > 1 && Claimable(w)
    ensures var failed := Execution(Failed, None);
            var once := Apply(Apply(w, Claim(1, 0, false), policy), Complete(1, failed, 0), policy);
            var reset := Apply(Apply(once, Claim(1, 0, false), policy), Operate(ResetFailures(0)), policy);
            var end := Apply(reset, Complete(1, failed, 0), policy);
            && once.row.failures == 1 && reset.row.failures == 0
            && TrailingFailures(end.history) == 1 && end.row.failures == 2
  {
    hide JobCompletionUpdate, MarkAfterRun, TrailingFailures;
    var failed := Execution(Failed, None);
    var claimed := Apply(w, Claim(1, 0, false), policy);
    CompletionCounts(claimed.row, claimed.row, failed, 0, policy);
    FirstFailureStaysClaimable(claimed.row, claimed.row, 0, policy);
    var once := Apply(claimed, Complete(1, failed, 0), policy);
    var again := Apply(once, Claim(1, 0, false), policy);
    var reset := Apply(again, Operate(ResetFailures(0)), policy);
    CompletionCounts(reset.row, again.row, failed, 0, policy);
    ResetEndsTheBlock(again.history);
    TrailingExtends(reset.history, Ran(Failed));
  }

  lemma ResetEndsTheBlock(history: seq<Event>)
    ensures TrailingFailures(history + [WasReset]) == 0
  {
    TrailingExtends(history, WasReset);
  }

  // ---------------------------------------------------------------------------------------------
  // What a row that is not running says

  ghost predicate Sound(w: World, policy: Policy) {
    && Exclusive(w) && Counted(w)
    && (!w.row.status.Running? ==> Settled(w.row, policy) && (w.history != [] ==> Due(w.row)))
  }

  lemma StepKeepsSound(w: World, step: Step, policy: Policy)
    requires policy.Valid() && Sound(w, policy) && !step.Operate?
    ensures Sound(Apply(w, step, policy), policy)
    ensures Apply(w, step, policy).row.enabled ==> w.row.enabled
  {
    StepKeepsExclusion(w, step, policy);
    if step.Complete? && step.worker in w.holders {
      CompletionSettles(w.row, step.execution, step.at, policy);
    }
  }

  lemma {:induction false} UnattendedRunsAreSound(w: World, steps: seq<Step>, policy: Policy)
    requires policy.Valid() && Initial(w) && Settled(w.row, policy) && Unattended(steps)
    ensures Sound(Run(w, steps, policy), policy)
    ensures Run(w, steps, policy).row.enabled ==> w.row.enabled
    decreases |steps|
  {
    if steps != [] {
      var before := steps[..|steps| - 1];
      UnattendedRunsAreSound(w, before, policy);
      StepKeepsSound(Run(w, before, policy), steps[|steps| - 1], policy);
    }
  }

  /** A row that is not running is auto-paused exactly when its trailing failures reach the policy maximum. */
  lemma AutoPausedExactlyAtMaximum(w: World, steps: seq<Step>, policy: Policy)
    requires policy.Valid() && Initial(w) && Settled(w.row, policy) && Unattended(steps)
    requires !Run(w, steps, policy).row.status.Running?
    ensures var end := Run(w, steps, policy);
            && (end.row.status.AutoPaused? <==> TrailingFailures(end.history) >= policy.maxFailures)
            && (end.row.status.BackingOff? <==> 2 <= TrailingFailures(end.history) < policy.maxFailures)
            && (end.row.status.Error? <==> TrailingFailures(end.history) == 1 < policy.maxFailures)
            && (end.row.status.Enabled? || end.row.status.Disabled? <==> TrailingFailures(end.history) == 0)
            && (end.row.status.AutoPaused? ==> !end.row.enabled && end.row.nextRunAt.None?)
  {
    UnattendedRunsAreSound(w, steps, policy);
  }

  /**
   * Once it has run, a row at rest is due again exactly its interval after its last run, if it has a positive one, when
   * it is enabled, disabled or in error; while it backs off when the backoff ends, and never when it is auto-paused.
   */
  lemma RestingRowIsDue(w: World, steps: seq<Step>, policy: Policy)
    requires policy.Valid() && Initial(w) && Settled(w.row, policy) && Unattended(steps)
    requires !Run(w, steps, policy).row.status.Running? && Run(w, steps, policy).history != []
    ensures var row := Run(w, steps, policy).row;
            row.nextRunAt ==
            if row.status.AutoPaused? then None
            else if row.status.BackingOff? then row.backoffUntil
            else if row.intervalSeconds > 0 && row.lastRunAt.Some? then Some(row.lastRunAt.value + row.intervalSeconds)
            else None
    ensures var row := Run(w, steps, policy).row;
            !row.status.AutoPaused? && !row.status.BackingOff? ==> row.lastRunAt.Some?
  {
    UnattendedRunsAreSound(w, steps, policy);
  }

  /** No scheduled claim of a backing-off job succeeds before the exact wait since the last run has passed. */
  lemma ScheduledRetryWaits(w: World, steps: seq<Step>, now: Time, policy: Policy)
    requires policy.Valid() && Initial(w) && Settled(w.row, policy) && Unattended(steps)
    requires Run(w, steps, policy).row.status.BackingOff?
    ensures var end := Run(w, steps, policy);
            var failures := TrailingFailures(end.history);
            && failures >= 2 && end.row.lastRunAt.Some?
            && (end.row.enabled ==>
                  (TryClaim(end.row, now, false).Some?
                   <==> now - end.row.lastRunAt.value >= IdealWait(failures, policy.backoffBase, policy.backoffMax)))
  {
    UnattendedRunsAreSound(w, steps, policy);
  }

  ghost predicate BelowMaximum(w: World, policy: Policy) {
    && w.row.failures <= policy.maxFailures
    && (w.row.status.Running? ==> w.row.failures < policy.maxFailures)
  }

  /** Left to the schedule, a job never fails more often in a row than the policy allows. */
  lemma {:induction false} ScheduleStopsAtMaximum(w: World, steps: seq<Step>, policy: Policy)
    requires policy.Valid() && Initial(w) && Settled(w.row, policy) && Scheduled(steps)
    ensures Sound(Run(w, steps, policy), policy) && BelowMaximum(Run(w, steps, policy), policy)
    ensures TrailingFailures(Run(w, steps, policy).history) <= policy.maxFailures
    decreases |steps|
  {
    if steps != [] {
      var before, last := steps[..|steps| - 1], steps[|steps| - 1];
      ScheduleStopsAtMaximum(w, before, policy);
      var mid := Run(w, before, policy);
      StepKeepsSound(mid, last, policy);
      if last.Complete? && last.worker in mid.holders {
        CompletionSettles(mid.row, last.execution, last.at, policy);
      }
    }
  }

  /** An auto-paused row stays exactly as it is until someone intervenes. */
  lemma {:induction false} AutoPauseIsFinal(w: World, steps: seq<Step>, policy: Policy)
    requires w.row.status.AutoPaused? && w.holders == map[] && Scheduled(steps)
    ensures Run(w, steps, policy).row == w.row && Run(w, steps, policy).holders == map[]
    ensures Run(w, steps, policy).history == w.history
    decreases |steps|
  {
    if steps != [] {
      AutoPauseIsFinal(w, steps[..|steps| - 1], policy);
    }
  }

  /** A worker that dies between claim and completion leaves the row claimed for good: not even a manual run starts. */
  lemma {:induction false} CrashedClaimIsNeverReleased(w: World, steps: seq<Step>, policy: Policy)
    requires w.row.status.Running? && w.holders == map[] && Unattended(steps)
    ensures Run(w, steps, policy) == w
    decreases |steps|
  {
    if steps != [] {
      CrashedClaimIsNeverReleased(w, steps[..|steps| - 1], policy);
    }
  }

  /** Resuming an auto-paused job keeps its count, so the very next failure pauses it again. */
  lemma ResumedJobRepausesOnNextFailure(row: Job, resumedAt: Time, execution: Execution, at: Time, policy: Policy)
    requires policy.Valid() && row.status.AutoPaused? && Settled(row, policy) && execution.status.Failed?
    ensures var resumed := ApplyControl(row, Resume(resumedAt));
            var claimed := TryClaim(resumed, resumedAt, false);
            && claimed.Some?
            && var end := MarkAfterRun(claimed.value, at, JobCompletionUpdate(claimed.value, execution, at, policy));
               end.status.AutoPaused? && !end.enabled
  {
  }
}
