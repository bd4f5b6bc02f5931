/**
 * Scheduled observations of a promoted candidate, and which of them are credited as independent evidence. The
 * watermark is the latest candle any linked run evaluated since the candidate was last updated.
 */
module CandleEvidence {
  import opened Wrappers
  import ShadowOutcome
  import ShadowRun

  type Time = int

  datatype RunRow = RunRow(
    status: ShadowOutcome.Status,
    decision: ShadowOutcome.Decision,
    candle: Option<Time>,
    createdAt: Time,
    linked: bool)

  datatype Credit = Credit(candle: Time, at: Time)

  datatype World = World(rows: seq<RunRow>, credits: seq<Credit>, windowStart: Time, clock: Time)

  datatype Observed = Observed(status: ShadowOutcome.Status, decision: ShadowOutcome.Decision, candle: Option<Time>,
                               linked: bool)

  datatype Step =
    | ObserveOnce(elapsed: nat, latestAvailable: Option<Time>, allowDuplicate: bool, run: Observed)
    | OtherRun(elapsed: nat, run: Observed)
    | UpdateCandidate(elapsed: nat)

  // ---------------------------------------------------------------------------------------------
  // The rule

  datatype Plan = Plan(shouldRun: bool, duplicateCheck: bool)

  function PlanObserveOnce(latestEvaluated: Option<Time>, latestAvailable: Option<Time>, allowDuplicate: bool): Plan {
    var noNewCandle := latestAvailable.None?
                       || (latestEvaluated.Some? && latestAvailable.value <= latestEvaluated.value);
    if noNewCandle && !allowDuplicate then Plan(false, false) else Plan(true, noNewCandle)
  }

  predicate ValidCompleted(status: ShadowOutcome.Status, decision: ShadowOutcome.Decision) {
    status.Completed? && (decision.NoSignal? || decision.WouldSubmit? || decision.RiskRejected?)
  }

  predicate IsEvidence(run: Observed, latestEvaluated: Option<Time>, duplicateCheck: bool) {
    && ValidCompleted(run.status, run.decision)
    && match (latestEvaluated, run.candle)
       case (Some(evaluated), Some(observed)) => observed > evaluated
       case (None, Some(_)) => !duplicateCheck
       case (_, None) => false
  }

  /** The latest evaluated candle among the linked runs of the window. */
  function LatestEvaluated(rows: seq<RunRow>, start: Time, end: Time): Option<Time> {
    if rows == [] then None
    else
      var earlier := LatestEvaluated(rows[..|rows| - 1], start, end);
      var last := rows[|rows| - 1];
      if !(last.linked && start <= last.createdAt <= end) || last.candle.None? then earlier
      else if earlier.Some? && earlier.value >= last.candle.value then earlier
      else last.candle
  }

  function Row(run: Observed, at: Time): RunRow { RunRow(run.status, run.decision, run.candle, at, run.linked) }

  function Apply(w: World, step: Step): World {
    var now := w.clock + step.elapsed;
    match step
    case ObserveOnce(_, latestAvailable, allowDuplicate, run) =>
      var evaluated := LatestEvaluated(w.rows, w.windowStart, now);
      var plan := PlanObserveOnce(evaluated, latestAvailable, allowDuplicate);
      if !plan.shouldRun then w.(clock := now)
      else World(w.rows + [Row(run, now)],
                 if IsEvidence(run, evaluated, plan.duplicateCheck) then w.credits + [Credit(run.candle.value, now)]
                 else w.credits,
                 w.windowStart, now)
    case OtherRun(_, run) => w.(rows := w.rows + [Row(run, now)], clock := now)
    case UpdateCandidate(_) => w.(windowStart := now, clock := now)
  }

  function Run(w: World, steps: seq<Step>): World {
    if steps == [] then w else Apply(Run(w, steps[..|steps| - 1]), steps[|steps| - 1])
  }

  /**
   * One scheduled observation: it runs exactly when a candle newer than the watermark is available or duplicates are
   * allowed, and its run is credited exactly when that completed, evaluated a candle newer than the watermark, or, where
   * there is none, any candle that was available. Any other run is stored without a credit, and an update only moves the
   * window.
   */
  lemma ObservationInWords(w: World, elapsed: nat, latestAvailable: Option<Time>, allowDuplicate: bool, run: Observed)
    ensures var now := w.clock + elapsed;
            var watermark := LatestEvaluated(w.rows, w.windowStart, now);
            var isNew := latestAvailable.Some? && (watermark.None? || latestAvailable.value > watermark.value);
            var runs := isNew || allowDuplicate;
            var credited := && runs && run.status.Completed?
                            && (run.decision.NoSignal? || run.decision.WouldSubmit? || run.decision.RiskRejected?)
                            && run.candle.Some?
                            && (if watermark.Some? then run.candle.value > watermark.value else latestAvailable.Some?);
            Apply(w, ObserveOnce(elapsed, latestAvailable, allowDuplicate, run))
            == World(if runs then w.rows + [RunRow(run.status, run.decision, run.candle, now, run.linked)] else w.rows,
                     if credited then w.credits + [Credit(run.candle.value, now)] else w.credits,
                     w.windowStart, now)
    ensures Apply(w, OtherRun(elapsed, run))
            == World(w.rows + [RunRow(run.status, run.decision, run.candle, w.clock + elapsed, run.linked)], w.credits,
                     w.windowStart, w.clock + elapsed)
    ensures Apply(w, UpdateCandidate(elapsed)) == World(w.rows, w.credits, w.clock + elapsed, w.clock + elapsed)
  {
    hide LatestEvaluated;
  }

  // ---------------------------------------------------------------------------------------------
  // The watermark

  /** The watermark is the candle of a linked run of the window, if any evaluated one. */
  ghost predicate Evaluated(rows: seq<RunRow>, start: Time, end: Time, candle: Time) {
    exists k :: 0 <= k < |rows| && rows[k].linked && start <= rows[k].createdAt <= end && rows[k].candle == Some(candle)
  }

  lemma {:induction false} LatestIsEvaluated(rows: seq<RunRow>, start: Time, end: Time)
    ensures var latest := LatestEvaluated(rows, start, end);
            latest.Some? ==> Evaluated(rows, start, end, latest.value)
    decreases |rows|
  {
    if rows != [] {
      var before := rows[..|rows| - 1];
      LatestIsEvaluated(before, start, end);
      var earlier := LatestEvaluated(before, start, end);
      if earlier.Some? {
        var k :| 0 <= k < |before| && before[k].linked && start <= before[k].createdAt <= end
                 && before[k].candle == Some(earlier.value);
        assert rows[k] == before[k];
      }
    }
  }

  lemma {:induction false} LatestBoundsRows(rows: seq<RunRow>, start: Time, end: Time)
    ensures forall k :: 0 <= k < |rows| && rows[k].linked && start <= rows[k].createdAt <= end && rows[k].candle.Some? ==>
              LatestEvaluated(rows, start, end).Some?
              && rows[k].candle.value <= LatestEvaluated(rows, start, end).value
    decreases |rows|
  {
    if rows != [] {
      LatestBoundsRows(rows[..|rows| - 1], start, end);
    }
  }

  /** A credit made no earlier than a given time, or any credit at all. */
  predicate Since(credit: Credit, since: Option<Time>) { since.None? || since.value <= credit.at }

  /** Credits are for ever later candles. */
  ghost predicate IncreasingSince(w: World, since: Option<Time>) {
    forall i, j :: 0 <= i < j < |w.credits| && Since(w.credits[i], since) && Since(w.credits[j], since) ==>
      w.credits[i].candle < w.credits[j].candle
  }

  predicate CoveredAt(w: World, credit: Credit, elapsed: nat) {
    var evaluated := LatestEvaluated(w.rows, w.windowStart, w.clock + elapsed);
    evaluated.Some? && credit.candle <= evaluated.value
  }

  /** The watermark covers every such credit, at any later time. */
  ghost predicate CoveredSince(w: World, since: Option<Time>) {
    forall k, elapsed: nat :: 0 <= k < |w.credits| && Since(w.credits[k], since) ==> CoveredAt(w, w.credits[k], elapsed)
  }

  ghost predicate NeverRepeatsSince(w: World, since: Option<Time>) {
    forall step: Step :: step.ObserveOnce? ==> IncreasingSince(Apply(w, step), since)
  }

  lemma CoveredKeepsIncreasing(w: World, step: Step, since: Option<Time>)
    requires IncreasingSince(w, since) && CoveredSince(w, since) && step.ObserveOnce?
    ensures IncreasingSince(Apply(w, step), since)
  {
    var next := Apply(w, step);
    hide LatestEvaluated;
    forall i, j | 0 <= i < j < |next.credits| && Since(next.credits[i], since) && Since(next.credits[j], since)
      ensures next.credits[i].candle < next.credits[j].candle
    {
      if j == |w.credits| {
        assert Since(w.credits[i], since);
        assert CoveredAt(w, w.credits[i], step.elapsed);
      }
    }
  }

  /** The observation that exposes an uncovered credit: the same candle, seen as new, run to completion. */
  function Repeat(credit: Credit, elapsed: nat): Step {
    ObserveOnce(elapsed, Some(credit.candle), false,
                Observed(ShadowOutcome.Completed, ShadowOutcome.NoSignal, Some(credit.candle), true))
  }

  lemma UncoveredRepeats(w: World, k: nat, elapsed: nat, since: Option<Time>)
    requires k < |w.credits| && Since(w.credits[k], since)
    requires !CoveredAt(w, w.credits[k], elapsed)
    requires since.Some? ==> since.value <= w.clock
    ensures !IncreasingSince(Apply(w, Repeat(w.credits[k], elapsed)), since)
  {
    var next := Apply(w, Repeat(w.credits[k], elapsed));
    assert next.credits[k] == w.credits[k] && next.credits[|w.credits|].candle == w.credits[k].candle;
    assert Since(next.credits[k], since) && Since(next.credits[|w.credits|], since);
  }

  /**
   * No later observation can credit an earlier credited candle again, with or without the duplicate flag, exactly
   * when the watermark covers every candle credited so far. This holds of all the credits ever made, and of those
   * made since any past time, the start of the present window among them.
   */
  lemma NeverRepeatsIffCovered(w: World, since: Option<Time>)
    requires IncreasingSince(w, since) && (since.Some? ==> since.value <= w.clock)
    ensures NeverRepeatsSince(w, since) <==> CoveredSince(w, since)
  {
    hide IncreasingSince, CoveredAt, Apply;
    if CoveredSince(w, since) {
      forall step: Step | step.ObserveOnce?
        ensures IncreasingSince(Apply(w, step), since)
      {
        CoveredKeepsIncreasing(w, step, since);
      }
    } else {
      var k, elapsed: nat :| 0 <= k < |w.credits| && Since(w.credits[k], since)
                             && !CoveredAt(w, w.credits[k], elapsed);
      UncoveredRepeats(w, k, elapsed, since);
    }
  }

  predicate InWindow(w: World, credit: Credit) { Since(credit, Some(w.windowStart)) }

  ghost predicate Increasing(w: World) { IncreasingSince(w, Some(w.windowStart)) }

  ghost predicate Covered(w: World) { CoveredSince(w, Some(w.windowStart)) }

  // ---------------------------------------------------------------------------------------------
  // Whole runs

  /** Every credit comes from a valid linked run of the same candle and time. */
  ghost predicate Backed(w: World) {
    && w.windowStart <= w.clock
    && (forall k :: 0 <= k < |w.credits| ==> HasRow(w, w.credits[k]))
  }

  ghost predicate HasRow(w: World, credit: Credit) {
    exists r :: 0 <= r < |w.rows| && w.rows[r].linked && w.rows[r].candle == Some(credit.candle)
                && w.rows[r].createdAt == credit.at <= w.clock && ValidCompleted(w.rows[r].status, w.rows[r].decision)
  }

  lemma BackedIsCovered(w: World)
    requires Backed(w)
    ensures Covered(w)
  {
    hide LatestEvaluated;
    forall k, elapsed: nat | 0 <= k < |w.credits| && InWindow(w, w.credits[k])
      ensures CoveredAt(w, w.credits[k], elapsed)
    {
      assert HasRow(w, w.credits[k]);
      LatestBoundsRows(w.rows, w.windowStart, w.clock + elapsed);
    }
  }

  /** Every observation of the candidate is linked to it. */
  predicate Linked(steps: seq<Step>) {
    forall k :: 0 <= k < |steps| && steps[k].ObserveOnce? ==> steps[k].run.linked
  }

  lemma RowStays(w: World, next: World, credit: Credit)
    requires HasRow(w, credit) && w.rows <= next.rows && w.clock <= next.clock
    ensures HasRow(next, credit)
  {
  }

  lemma StepKeepsBacked(w: World, step: Step)
    requires Backed(w) && Increasing(w) && (step.ObserveOnce? ==> step.run.linked)
    ensures Backed(Apply(w, step)) && Increasing(Apply(w, step))
  {
    hide LatestEvaluated, HasRow;
    var next := Apply(w, step);
    BackedIsCovered(w);
    if step.ObserveOnce? {
      CoveredKeepsIncreasing(w, step, Some(w.windowStart));
    }
    forall k | 0 <= k < |next.credits|
      ensures HasRow(next, next.credits[k])
    {
      if k < |w.credits| {
        RowStays(w, next, w.credits[k]);
      } else {
        LastRowBacks(next, next.credits[k]);
      }
    }
  }

  lemma LastRowBacks(w: World, credit: Credit)
    requires w.rows != []
    requires var row := w.rows[|w.rows| - 1];
             && row.linked && row.candle == Some(credit.candle) && row.createdAt == credit.at <= w.clock
             && ValidCompleted(row.status, row.decision)
    ensures HasRow(w, credit)
  {
  }

  /**
   * Over every run of observations, other shadow runs and candidate updates in which the candidate's observations are
   * linked to it, the credits of the present window are strictly increasing: no candle is credited twice.
   */
  lemma {:induction false} CreditsIncrease(w: World, steps: seq<Step>)
    requires Backed(w) && Increasing(w) && Linked(steps)
    ensures Backed(Run(w, steps)) && Increasing(Run(w, steps))
    decreases |steps|
  {
    hide Apply, Backed, Increasing;
    if steps != [] {
      CreditsIncrease(w, steps[..|steps| - 1]);
      StepKeepsBacked(Run(w, steps[..|steps| - 1]), steps[|steps| - 1]);
    }
  }

  // ---------------------------------------------------------------------------------------------
  // All windows together

  function Watermark(w: World): Option<Time> { LatestEvaluated(w.rows, w.windowStart, w.clock) }

  /** Rows lie in the past, and a watermark, when there is one, covers every credit ever made. */
  ghost predicate Tracked(w: World) {
    && (forall r :: 0 <= r < |w.rows| ==> w.rows[r].createdAt <= w.clock)
    && (forall k :: 0 <= k < |w.credits| && Watermark(w).Some? ==> w.credits[k].candle <= Watermark(w).value)
  }

  /**
   * The first candle a linked run evaluates in a window that has no watermark yet is newer than every credit, or not
   * older when the run is not an observation; and a window starts empty, no linked run sharing its first instant.
   */
  ghost predicate NewerAfterUpdate(w: World, step: Step) {
    match step
    case ObserveOnce(_, _, _, run) =>
      Watermark(w).None? && run.candle.Some? ==>
        forall k :: 0 <= k < |w.credits| ==> w.credits[k].candle < run.candle.value
    case OtherRun(_, run) =>
      Watermark(w).None? && run.linked && run.candle.Some? ==>
        forall k :: 0 <= k < |w.credits| ==> w.credits[k].candle <= run.candle.value
    case UpdateCandidate(elapsed) => Watermark(Apply(w, step)).None?
  }

  ghost predicate NewerAfterUpdates(w: World, steps: seq<Step>) {
    steps == [] ||
    (NewerAfterUpdates(w, steps[..|steps| - 1]) && NewerAfterUpdate(Run(w, steps[..|steps| - 1]), steps[|steps| - 1]))
  }

  lemma {:induction false} EndIsIrrelevant(rows: seq<RunRow>, start: Time, end: Time, later: Time)
    requires end <= later && forall r :: 0 <= r < |rows| ==> rows[r].createdAt <= end
    ensures LatestEvaluated(rows, start, later) == LatestEvaluated(rows, start, end)
    decreases |rows|
  {
    if rows != [] {
      EndIsIrrelevant(rows[..|rows| - 1], start, end, later);
    }
  }

  lemma WatermarkExtends(w: World, row: RunRow, now: Time)
    requires Tracked(w) && w.clock <= now == row.createdAt && w.windowStart <= now
    ensures LatestEvaluated(w.rows, w.windowStart, now) == Watermark(w)
    ensures var next := LatestEvaluated(w.rows + [row], w.windowStart, now);
            && (!row.linked || row.candle.None? ==> next == Watermark(w))
            && (row.linked && row.candle.Some? ==>
                  && next.Some? && row.candle.value <= next.value
                  && (Watermark(w).Some? ==> Watermark(w).value <= next.value)
                  && (next == row.candle || next == Watermark(w)))
  {
    EndIsIrrelevant(w.rows, w.windowStart, w.clock, now);
    assert (w.rows + [row])[..|w.rows|] == w.rows;
  }

  lemma StepKeepsTracked(w: World, step: Step)
    requires Tracked(w) && IncreasingSince(w, None) && w.windowStart <= w.clock
    requires NewerAfterUpdate(w, step) && (step.ObserveOnce? ==> step.run.linked)
    ensures var next := Apply(w, step);
            Tracked(next) && IncreasingSince(next, None) && next.windowStart <= next.clock
  {
    hide LatestEvaluated;
    var now := w.clock + step.elapsed;
    if step.UpdateCandidate? {
      return;
    }
    WatermarkExtends(w, Row(step.run, now), now);
  }

  /**
   * Over every run in which the candidate's observations are linked to it and every update is followed by a newer
   * candle, the credits of all windows together are strictly increasing: no candle is ever credited twice.
   */
  lemma {:induction false} CreditsIncreaseForEver(w: World, steps: seq<Step>)
    requires Tracked(w) && IncreasingSince(w, None) && w.windowStart <= w.clock
    requires Linked(steps) && NewerAfterUpdates(w, steps)
    ensures var end := Run(w, steps);
            Tracked(end) && IncreasingSince(end, None) && end.windowStart <= end.clock
    decreases |steps|
  {
    hide Apply, Tracked, IncreasingSince, NewerAfterUpdate;
    if steps != [] {
      CreditsIncreaseForEver(w, steps[..|steps| - 1]);
      StepKeepsTracked(Run(w, steps[..|steps| - 1]), steps[|steps| - 1]);
    }
  }

  /** Crediting an unlinked observation loses its candle: unless another linked run covers it, it can be credited again. */
  lemma UnlinkedObservationRepeats(start: Time, candle: Time, elapsed: nat)
    ensures var empty := World([], [], start, start);
            var seen := Observed(ShadowOutcome.Completed, ShadowOutcome.NoSignal, Some(candle), false);
            var once := Apply(empty, ObserveOnce(elapsed, Some(candle), false, seen));
            var twice := Apply(once, ObserveOnce(elapsed, Some(candle), false, seen));
            |twice.credits| == 2 && twice.credits[0].candle == twice.credits[1].candle && !Increasing(twice)
  {
    var empty := World([], [], start, start);
    var seen := Observed(ShadowOutcome.Completed, ShadowOutcome.NoSignal, Some(candle), false);
    var once := Apply(empty, ObserveOnce(elapsed, Some(candle), false, seen));
    assert once.rows[..0] == [];
    assert LatestEvaluated(once.rows, start, start + elapsed + elapsed).None?;
    var twice := Apply(once, ObserveOnce(elapsed, Some(candle), false, seen));
    assert InWindow(twice, twice.credits[0]) && InWindow(twice, twice.credits[1]);
  }

  /** Updating the candidate starts a new window, in which the last candle can be credited once more. */
  lemma UpdatedCandidateCreditsAgain(start: Time, candle: Time)
    ensures var first := Apply(World([], [], start, start), Repeat(Credit(candle, start), 0));
            var again := Apply(Apply(first, UpdateCandidate(1)), Repeat(Credit(candle, start), 0));
            && |again.credits| == 2 && again.credits[0].candle == again.credits[1].candle
            && Increasing(again) && !IncreasingSince(again, None)
  {
    hide Apply, LatestEvaluated, Increasing;
    var empty := World([], [], start, start);
    NothingEvaluated(start, start);
    RepeatIsCredited(empty, Credit(candle, start), 0);
    var first := Apply(empty, Repeat(Credit(candle, start), 0));
    UpdateOpensWindow(first, 1);
    var updated := Apply(first, UpdateCandidate(1));
    OldRowIsOutside(first.rows[0], start + 1, start + 1);
    assert updated.rows == [first.rows[0]];
    RepeatIsCredited(updated, Credit(candle, start), 0);
    var again := Apply(updated, Repeat(Credit(candle, start), 0));
    OneInWindow(again);
  }

  lemma NothingEvaluated(start: Time, end: Time)
    ensures LatestEvaluated([], start, end).None?
  {
  }

  lemma OldRowIsOutside(row: RunRow, start: Time, end: Time)
    requires row.createdAt < start
    ensures LatestEvaluated([row], start, end).None?
  {
    assert [row][..0] == [];
  }

  lemma UpdateOpensWindow(w: World, elapsed: nat)
    ensures Apply(w, UpdateCandidate(elapsed)) == w.(windowStart := w.clock + elapsed, clock := w.clock + elapsed)
  {
  }

  lemma OneInWindow(w: World)
    requires |w.credits| == 2 && !InWindow(w, w.credits[0])
    ensures Increasing(w)
  {
  }

  lemma RepeatIsCredited(w: World, credit: Credit, elapsed: nat)
    requires !CoveredAt(w, credit, elapsed)
    ensures Apply(w, Repeat(credit, elapsed))
            == World(w.rows + [RunRow(ShadowOutcome.Completed, ShadowOutcome.NoSignal, Some(credit.candle),
                                      w.clock + elapsed, true)],
                     w.credits + [Credit(credit.candle, w.clock + elapsed)], w.windowStart, w.clock + elapsed)
  {
    hide LatestEvaluated;
  }

  // ---------------------------------------------------------------------------------------------
  // Evidence and the counted observations

  /** The distinct candles the performance summary counts: those of valid linked runs of the window. */
  function CountedCandles(rows: seq<RunRow>, start: Time): set<Time> {
    set k | 0 <= k < |rows| && rows[k].linked && start <= rows[k].createdAt && rows[k].candle.Some?
            && ValidCompleted(rows[k].status, rows[k].decision) :: rows[k].candle.value
  }

  function WindowCandles(credits: seq<Credit>, start: Time): seq<Time> {
    if credits == [] then []
    else
      var last := credits[|credits| - 1];
      WindowCandles(credits[..|credits| - 1], start) + if start <= last.at then [last.candle] else []
  }

  ghost predicate Ascending(s: seq<Time>) {
    forall i, j :: 0 <= i < j < |s| ==> s[i] < s[j]
  }

  ghost predicate CreditedIn(credits: seq<Credit>, start: Time, candle: Time) {
    exists k :: 0 <= k < |credits| && start <= credits[k].at && credits[k].candle == candle
  }

  lemma {:induction false} WindowCandleIsCredited(credits: seq<Credit>, start: Time, candle: Time)
    requires candle in WindowCandles(credits, start)
    ensures CreditedIn(credits, start, candle)
    decreases |credits|
  {
    var before := credits[..|credits| - 1];
    if candle in WindowCandles(before, start) {
      WindowCandleIsCredited(before, start, candle);
      var k :| 0 <= k < |before| && start <= before[k].at && before[k].candle == candle;
      assert credits[k] == before[k];
    } else {
      assert credits[|credits| - 1].candle == candle;
    }
  }

  lemma {:induction false} WindowCandlesIncrease(credits: seq<Credit>, start: Time)
    requires forall i, j :: 0 <= i < j < |credits| && start <= credits[i].at && start <= credits[j].at ==>
               credits[i].candle < credits[j].candle
    ensures Ascending(WindowCandles(credits, start))
    decreases |credits|
  {
    hide CreditedIn;
    if credits != [] {
      var before, last := credits[..|credits| - 1], credits[|credits| - 1];
      WindowCandlesIncrease(before, start);
      assert WindowCandles(credits, start) == WindowCandles(before, start) + if start <= last.at then [last.candle] else [];
      if start <= last.at {
        forall i | 0 <= i < |WindowCandles(before, start)|
          ensures WindowCandles(before, start)[i] < last.candle
        {
          WindowCandleIsCredited(before, start, WindowCandles(before, start)[i]);
          CreditedBeforeLast(credits, start, WindowCandles(before, start)[i]);
        }
      }
    }
  }

  lemma CreditedBeforeLast(credits: seq<Credit>, start: Time, candle: Time)
    requires credits != [] && CreditedIn(credits[..|credits| - 1], start, candle)
    requires start <= credits[|credits| - 1].at
    requires forall i, j :: 0 <= i < j < |credits| && start <= credits[i].at && start <= credits[j].at ==>
               credits[i].candle < credits[j].candle
    ensures candle < credits[|credits| - 1].candle
  {
    var before := credits[..|credits| - 1];
    var k :| 0 <= k < |before| && start <= before[k].at && before[k].candle == candle;
    assert credits[k] == before[k];
  }

  lemma {:induction false} DistinctFit(s: seq<Time>, all: set<Time>)
    requires Ascending(s)
    requires forall c :: c in s ==> c in all
    ensures |s| <= |all|
    decreases |s|
  {
    if s != [] {
      var last := s[|s| - 1];
      DistinctFit(s[..|s| - 1], all - {last});
    }
  }

  lemma CreditIsCounted(w: World, credit: Credit)
    requires HasRow(w, credit) && InWindow(w, credit)
    ensures credit.candle in CountedCandles(w.rows, w.windowStart)
  {
    var r :| 0 <= r < |w.rows| && w.rows[r].linked && w.rows[r].candle == Some(credit.candle)
             && w.rows[r].createdAt == credit.at <= w.clock && ValidCompleted(w.rows[r].status, w.rows[r].decision);
    assert w.rows[r].candle.value == credit.candle;
  }

  /** The credits of a window never outnumber the independent observations the performance summary counts in it. */
  lemma CreditsFitTheCount(w: World, steps: seq<Step>)
    requires Backed(w) && Increasing(w) && Linked(steps)
    ensures var end := Run(w, steps);
            |WindowCandles(end.credits, end.windowStart)| <= |CountedCandles(end.rows, end.windowStart)|
  {
    hide Run, LatestEvaluated, WindowCandles, Ascending, CountedCandles;
    CreditsIncrease(w, steps);
    var end := Run(w, steps);
    WindowCandlesIncrease(end.credits, end.windowStart);
    forall c | c in WindowCandles(end.credits, end.windowStart)
      ensures c in CountedCandles(end.rows, end.windowStart)
    {
      WindowCandleIsCredited(end.credits, end.windowStart, c);
      var k :| 0 <= k < |end.credits| && end.windowStart <= end.credits[k].at && end.credits[k].candle == c;
      CreditIsCounted(end, end.credits[k]);
    }
    DistinctFit(WindowCandles(end.credits, end.windowStart), CountedCandles(end.rows, end.windowStart));
  }

  /**
   * Although the rule names risk rejections, the classifier never completes one, so what can be credited is a signal
   * that would be submitted, or a completed run without a signal.
   */
  lemma OnlySignalDecisionsCount(c: ShadowRun.Conditions, evaluation: ShadowRun.Evaluation, row: ShadowOutcome.Signal,
                                 riskId: ShadowOutcome.Id, rules: ShadowRun.Rules)
    ensures var plan := ShadowRun.PlanFor(c, evaluation, row, riskId, rules);
            && plan.Success?
            && (ValidCompleted(plan.value.status, plan.value.decision)
                <==> plan.value.decision.NoSignal? || plan.value.decision.WouldSubmit?)
            && (plan.value.decision.RiskRejected? ==> plan.value.status.Rejected?)
  {
    hide ShadowOutcome.CandleBlockReason, ShadowOutcome.ResolveShadowPrice, ShadowOutcome.RoundDp8,
         ShadowOutcome.RiskReasonsToShadow, ShadowOutcome.FeedBlockReason;
    ShadowRun.PlanNamesItsSignal(c, evaluation, row, riskId, rules);
  }
}
