/** Execution readiness: the checks a verdict is built from, and the verdict. */
module Readiness {
  import Sums
  import opened Positions

  datatype Severity = Low | Medium | High | Critical

  datatype Verdict = Ready | Degraded | NotReady | Unknown

  datatype Check = Check(code: string, passed: bool, blocking: bool, severity: Severity)

  datatype Report = Report(checks: seq<Check>, blockers: seq<string>, recommendations: set<string>)

  const EMPTY_REPORT := Report([], [], {})

  datatype Result = Result(verdict: Verdict, score: int, blockingReasons: seq<string>, warnings: seq<Check>)

  /** One line of the readiness computation; blockers and recommendations are named by their labels. */
  datatype Step =
    | PushCheck(code: string, passed: bool, blocking: bool, severity: Severity, blocker: string, recommendation: string)
    | PushWarning(code: string, severity: Severity)
    | Recommend(recommendation: string)
    | MissingContext

  function Penalty(severity: Severity): nat {
    match severity
    case Low => 3
    case Medium => 8
    case High => 15
    case Critical => 0
  }

  predicate IsWarning(check: Check) { !check.passed && !check.blocking }

  function PenaltyOf(check: Check): nat { if IsWarning(check) then Penalty(check.severity) else 0 }

  function Penalties(checks: seq<Check>): nat {
    if checks == [] then 0 else Penalties(checks[..|checks| - 1]) + PenaltyOf(checks[|checks| - 1])
  }

  function Clamp(x: int): int { if x < 0 then 0 else if x > 100 then 100 else x }

  /** The score before blockers cap it. */
  method ScoreExecutionReadiness(checks: seq<Check>) returns (score: int)
    ensures score == Clamp(100 - Penalties(checks))
  {
    score := 100;
    for i := 0 to |checks|
      invariant score == 100 - Penalties(checks[..i])
    {
      assert checks[..i + 1][..i] == checks[..i];
      if !checks[i].passed && !checks[i].blocking {
        score := score - Penalty(checks[i].severity);
      }
    }
    assert checks[..|checks|] == checks;
    score := Clamp(score);
  }

  function Warnings(checks: seq<Check>): seq<Check> {
    if checks == [] then []
    else
      var last := checks[|checks| - 1];
      Warnings(checks[..|checks| - 1]) + if IsWarning(last) then [last] else []
  }

  predicate BlocksHard(check: Check) { !check.passed && check.blocking && check.severity.Critical? }

  predicate Blocks(check: Check) { !check.passed && check.blocking }

  predicate AnyBlock(checks: seq<Check>) { exists k :: 0 <= k < |checks| && Blocks(checks[k]) }

  predicate AnyHardBlock(checks: seq<Check>) { exists k :: 0 <= k < |checks| && BlocksHard(checks[k]) }

  function CappedScore(report: Report): int {
    var score := Clamp(100 - Penalties(report.checks));
    if report.blockers != [] && score > 40 then 40 else score
  }

  function Finalize(report: Report): Result {
    var score := CappedScore(report);
    var verdict := if AnyHardBlock(report.checks) then Unknown
                   else if report.blockers != [] || score < 60 then NotReady
                   else if score >= 85 then Ready
                   else Degraded;
    Result(verdict, score, report.blockers, Warnings(report.checks))
  }

  function After(r: Report, step: Step): Report {
    match step
    case PushCheck(code, passed, blocking, severity, blocker, recommendation) =>
      Report(r.checks + [Check(code, passed, blocking, severity)],
             if !passed && blocking && blocker !in r.blockers then r.blockers + [blocker] else r.blockers,
             if passed then r.recommendations else r.recommendations + {recommendation})
    case PushWarning(code, severity) => r.(checks := r.checks + [Check(code, false, false, severity)])
    case Recommend(recommendation) => r.(recommendations := r.recommendations + {recommendation})
    case MissingContext => r.(checks := r.checks + [Check("minimal_context_missing", false, true, Critical)])
  }

  function RunSteps(steps: seq<Step>): Report {
    if steps == [] then EMPTY_REPORT else After(RunSteps(steps[..|steps| - 1]), steps[|steps| - 1])
  }

  /** The report as it is built up. */
  class ReadinessBuilder {
    var checks: seq<Check>
    var blockers: seq<string>
    var recommendations: set<string>

    function State(): Report
      reads this
    {
      Report(checks, blockers, recommendations)
    }

    constructor ()
      ensures State() == EMPTY_REPORT
    {
      checks, blockers, recommendations := [], [], {};
    }

    method PushCheck(code: string, passed: bool, blocking: bool, severity: Severity, blocker: string,
                     recommendation: string)
      modifies this
      ensures State() == After(old(State()), Step.PushCheck(code, passed, blocking, severity, blocker, recommendation))
    {
      if !passed {
        recommendations := recommendations + {recommendation};
        if blocking && blocker !in blockers {
          blockers := blockers + [blocker];
        }
      }
      checks := checks + [Check(code, passed, blocking, severity)];
    }

    method PushWarning(code: string, severity: Severity)
      modifies this
      ensures State() == After(old(State()), Step.PushWarning(code, severity))
    {
      checks := checks + [Check(code, false, false, severity)];
    }

    /** A request that names neither a symbol nor a strategy cannot be judged, whatever its target. */
    method CheckContext(hasSymbol: bool, hasStrategy: bool)
      modifies this
      ensures State() == if !hasSymbol && !hasStrategy then After(old(State()), MissingContext) else old(State())
    {
      if !hasSymbol && !hasStrategy {
        checks := checks + [Check("minimal_context_missing", false, true, Critical)];
      }
    }

    method FinalizeReadinessResult() returns (result: Result)
      ensures result == Finalize(State())
    {
      var score := ScoreExecutionReadiness(checks);
      if blockers != [] && score > 40 {
        score := 40;
      }
      var verdict := if AnyHardBlock(checks) then Unknown
                     else if blockers != [] || score < 60 then NotReady
                     else if score >= 85 then Ready
                     else Degraded;
      result := Result(verdict, score, blockers, Warnings(checks));
    }
  }

  // ---------------------------------------------------------------------------------------------
  // What a verdict says about the steps

  predicate FailsBlocking(step: Step) { step.PushCheck? && !step.passed && step.blocking }

  predicate HardStep(step: Step) { step.MissingContext? || (FailsBlocking(step) && step.severity.Critical?) }

  ghost predicate AnyFailsBlocking(steps: seq<Step>) { exists k :: 0 <= k < |steps| && FailsBlocking(steps[k]) }

  ghost predicate AnyMissingContext(steps: seq<Step>) { exists k :: 0 <= k < |steps| && steps[k].MissingContext? }

  ghost predicate AnyHardStep(steps: seq<Step>) { exists k :: 0 <= k < |steps| && HardStep(steps[k]) }

  function StepPenalty(step: Step): nat {
    match step
    case PushCheck(_, passed, blocking, severity, _, _) => if !passed && !blocking then Penalty(severity) else 0
    case PushWarning(_, severity) => Penalty(severity)
    case Recommend(_) => 0
    case MissingContext => 0
  }

  function TotalPenalty(steps: seq<Step>): nat {
    if steps == [] then 0 else TotalPenalty(steps[..|steps| - 1]) + StepPenalty(steps[|steps| - 1])
  }

  ghost predicate Reported(steps: seq<Step>, blocker: string) {
    exists k :: 0 <= k < |steps| && FailsBlocking(steps[k]) && steps[k].blocker == blocker
  }

  /** Blockers are listed once each, and are exactly those of the blocking checks that failed. */
  lemma {:induction false} BlockersAreTheFailures(steps: seq<Step>)
    ensures var blockers := RunSteps(steps).blockers;
            && (forall i, j :: 0 <= i < j < |blockers| ==> blockers[i] != blockers[j])
            && (forall b :: b in blockers <==> Reported(steps, b))
            && (blockers != [] <==> AnyFailsBlocking(steps))
    decreases |steps|
  {
    if steps != [] {
      var before, last := steps[..|steps| - 1], steps[|steps| - 1];
      BlockersAreTheFailures(before);
      assert steps == before + [last];
      forall b
        ensures Reported(steps, b) <==> Reported(before, b) || (FailsBlocking(last) && last.blocker == b)
      {
        ReportedExtends(before, last, b);
      }
      FailsExtends(before, last);
      if FailsBlocking(last) {
        assert last.blocker in RunSteps(steps).blockers;
      }
    }
  }

  lemma ReportedExtends(before: seq<Step>, last: Step, b: string)
    ensures Reported(before + [last], b) <==> Reported(before, b) || (FailsBlocking(last) && last.blocker == b)
  {
    if Reported(before, b) {
      var k :| 0 <= k < |before| && FailsBlocking(before[k]) && before[k].blocker == b;
      assert (before + [last])[k] == before[k];
    }
    if FailsBlocking(last) && last.blocker == b {
      assert (before + [last])[|before|] == last;
    }
  }

  lemma FailsExtends(before: seq<Step>, last: Step)
    ensures AnyFailsBlocking(before + [last]) <==> AnyFailsBlocking(before) || FailsBlocking(last)
    ensures AnyHardStep(before + [last]) <==> AnyHardStep(before) || HardStep(last)
    ensures AnyMissingContext(before + [last]) <==> AnyMissingContext(before) || last.MissingContext?
  {
    var all := before + [last];
    assert all[|before|] == last;
    assert forall k :: 0 <= k < |before| ==> all[k] == before[k];
  }

  /** The check a step appends, if any. */
  function CheckOf(step: Step): seq<Check> {
    match step
    case PushCheck(code, passed, blocking, severity, _, _) => [Check(code, passed, blocking, severity)]
    case PushWarning(code, severity) => [Check(code, false, false, severity)]
    case Recommend(_) => []
    case MissingContext => [Check("minimal_context_missing", false, true, Critical)]
  }

  lemma StepAppendsItsCheck(r: Report, step: Step)
    ensures After(r, step).checks == r.checks + CheckOf(step)
  {
  }

  lemma StepExtends(checks: seq<Check>, step: Step)
    ensures Penalties(checks + CheckOf(step)) == Penalties(checks) + StepPenalty(step)
    ensures AnyHardBlock(checks + CheckOf(step)) <==> AnyHardBlock(checks) || HardStep(step)
    ensures AnyBlock(checks + CheckOf(step)) <==> AnyBlock(checks) || FailsBlocking(step) || step.MissingContext?
  {
    if step.Recommend? {
      assert checks + CheckOf(step) == checks;
    } else {
      CheckExtends(checks, CheckOf(step)[0]);
      assert CheckOf(step) == [CheckOf(step)[0]];
    }
  }

  lemma CheckExtends(checks: seq<Check>, last: Check)
    ensures Penalties(checks + [last]) == Penalties(checks) + PenaltyOf(last)
    ensures AnyHardBlock(checks + [last]) <==> AnyHardBlock(checks) || BlocksHard(last)
    ensures AnyBlock(checks + [last]) <==> AnyBlock(checks) || Blocks(last)
  {
    var all := checks + [last];
    assert all[|checks|] == last && all[..|checks|] == checks;
    assert forall k :: 0 <= k < |checks| ==> all[k] == checks[k];
  }

  lemma {:induction false} ChecksFollowSteps(steps: seq<Step>)
    ensures Penalties(RunSteps(steps).checks) == TotalPenalty(steps)
    ensures AnyHardBlock(RunSteps(steps).checks) <==> AnyHardStep(steps)
    ensures AnyBlock(RunSteps(steps).checks) <==> AnyFailsBlocking(steps) || AnyMissingContext(steps)
    decreases |steps|
  {
    hide Penalties, AnyHardBlock, AnyBlock, AnyHardStep, AnyFailsBlocking, AnyMissingContext, After;
    NothingPushed();
    if steps != [] {
      var before, last := steps[..|steps| - 1], steps[|steps| - 1];
      ChecksFollowSteps(before);
      assert steps == before + [last];
      FailsExtends(before, last);
      StepAppendsItsCheck(RunSteps(before), last);
      StepExtends(RunSteps(before).checks, last);
    }
  }

  lemma NothingPushed()
    ensures Penalties([]) == 0 && !AnyHardBlock([]) && !AnyBlock([])
    ensures !AnyHardStep([]) && !AnyFailsBlocking([]) && !AnyMissingContext([])
  {
  }

  /**
   * The verdict of any computation, in terms of what was pushed: unknown exactly when context is missing or a
   * critical blocking check failed; otherwise not ready exactly when a blocking check failed or the warnings cost
   * more than 40 points; otherwise degraded when they cost more than 15.
   */
  lemma VerdictIsExact(steps: seq<Step>)
    ensures Finalize(RunSteps(steps)).verdict ==
            if AnyHardStep(steps) then Unknown
            else if AnyFailsBlocking(steps) || TotalPenalty(steps) > 40 then NotReady
            else if TotalPenalty(steps) <= 15 then Ready
            else Degraded
    ensures var cost := TotalPenalty(steps);
            Finalize(RunSteps(steps)).score == if AnyFailsBlocking(steps) && cost < 60 then 40
                                               else if cost < 100 then 100 - cost
                                               else 0
    ensures TotalPenalty(steps) == 3 * Warned(steps, Low) + 8 * Warned(steps, Medium) + 15 * Warned(steps, High)
  {
    hide AnyHardBlock, AnyHardStep, AnyFailsBlocking, RunSteps, TotalPenalty, Warned;
    BlockersAreTheFailures(steps);
    ChecksFollowSteps(steps);
    PenaltiesInWords(steps);
  }

  /** How many failed checks and warnings of a severity do not block. */
  function Warned(steps: seq<Step>, severity: Severity): nat {
    if steps == [] then 0
    else
      var last := steps[|steps| - 1];
      Warned(steps[..|steps| - 1], severity)
      + if (last.PushWarning? || (last.PushCheck? && !last.passed && !last.blocking)) && last.severity == severity
        then 1 else 0
  }

  lemma {:induction false} PenaltiesInWords(steps: seq<Step>)
    ensures TotalPenalty(steps) == 3 * Warned(steps, Low) + 8 * Warned(steps, Medium) + 15 * Warned(steps, High)
    decreases |steps|
  {
    if steps != [] {
      PenaltiesInWords(steps[..|steps| - 1]);
    }
  }

  ghost predicate WarnsAt(checks: seq<Check>, at: seq<nat>) {
    forall k :: 0 <= k < |checks| ==> (k in at <==> !checks[k].passed && !checks[k].blocking)
  }

  ghost predicate ChecksAt(steps: seq<Step>, at: seq<nat>) {
    forall k :: 0 <= k < |steps| ==> (k in at <==> !steps[k].Recommend?)
  }

  /** The warnings of a result are the failed checks that do not block, in their order. */
  lemma {:induction false} WarningsInWords(checks: seq<Check>) returns (at: seq<nat>)
    ensures Increasing(at, |checks|) && |at| == |Warnings(checks)|
    ensures forall i :: 0 <= i < |at| ==> Warnings(checks)[i] == checks[at[i]]
    ensures WarnsAt(checks, at)
    decreases |checks|
  {
    hide Increasing, WarnsAt;
    NoPositions();
    at := [];
    if checks != [] {
      var n := |checks| - 1;
      var before := WarningsInWords(checks[..n]);
      IncreasingExtends(before, n);
      WarnsAtExtends(checks, before);
      at := if IsWarning(checks[n]) then before + [n] else before;
    }
  }

  lemma NoPositions()
    ensures Increasing([], 0) && WarnsAt([], []) && ChecksAt([], [])
  {
  }

  lemma WarnsAtExtends(checks: seq<Check>, before: seq<nat>)
    requires checks != [] && Increasing(before, |checks| - 1) && WarnsAt(checks[..|checks| - 1], before)
    ensures WarnsAt(checks, if IsWarning(checks[|checks| - 1]) then before + [|checks| - 1] else before)
  {
    var n := |checks| - 1;
    IncreasingExtends(before, n);
    assert forall k :: 0 <= k < n ==> checks[k] == checks[..n][k];
  }

  lemma ChecksAtExtends(steps: seq<Step>, before: seq<nat>)
    requires steps != [] && Increasing(before, |steps| - 1) && ChecksAt(steps[..|steps| - 1], before)
    ensures ChecksAt(steps, if steps[|steps| - 1].Recommend? then before else before + [|steps| - 1])
  {
    var n := |steps| - 1;
    IncreasingExtends(before, n);
    assert forall k :: 0 <= k < n ==> steps[k] == steps[..n][k];
  }

  predicate IsCheckOf(check: Check, step: Step) {
    match step
    case PushCheck(code, passed, blocking, severity, _, _) =>
      check.code == code && check.passed == passed && check.blocking == blocking && check.severity == severity
    case PushWarning(code, severity) =>
      check.code == code && !check.passed && !check.blocking && check.severity == severity
    case Recommend(_) => false
    case MissingContext =>
      check.code == "minimal_context_missing" && !check.passed && check.blocking && check.severity == Critical
  }

  /** The checks of a report are those of the steps, in their order, every step but a bare recommendation adding one. */
  lemma {:induction false} ChecksInWords(steps: seq<Step>) returns (at: seq<nat>)
    ensures Increasing(at, |steps|) && |at| == |RunSteps(steps).checks|
    ensures forall i :: 0 <= i < |at| ==> IsCheckOf(RunSteps(steps).checks[i], steps[at[i]])
    ensures ChecksAt(steps, at)
    decreases |steps|
  {
    hide Increasing, ChecksAt, After;
    NoPositions();
    at := [];
    if steps != [] {
      var n := |steps| - 1;
      var before := ChecksInWords(steps[..n]);
      IncreasingExtends(before, n);
      StepAppendsItsCheck(RunSteps(steps[..n]), steps[n]);
      ChecksAtExtends(steps, before);
      at := if steps[n].Recommend? then before else before + [n];
    }
  }

  ghost predicate FirstFailure(steps: seq<Step>, k: nat) {
    && k < |steps| && FailsBlocking(steps[k])
    && !Reported(steps[..k], steps[k].blocker)
  }

  ghost predicate BlockersAt(steps: seq<Step>, at: seq<nat>, blockers: seq<string>) {
    && |at| == |blockers|
    && (forall i :: 0 <= i < |at| ==> FirstFailure(steps, at[i]) && blockers[i] == steps[at[i]].blocker)
  }

  lemma FirstFailureStays(steps: seq<Step>, k: nat)
    requires steps != [] && FirstFailure(steps[..|steps| - 1], k)
    ensures FirstFailure(steps, k)
  {
    hide Reported;
    assert steps[..|steps| - 1][..k] == steps[..k];
  }

  /** Blockers stand in the order in which they were first reported. */
  lemma {:induction false} BlockersInOrder(steps: seq<Step>) returns (at: seq<nat>)
    ensures Increasing(at, |steps|) && BlockersAt(steps, at, RunSteps(steps).blockers)
    decreases |steps|
  {
    hide Reported, Increasing, FirstFailure;
    NoPositions();
    at := [];
    if steps != [] {
      var n := |steps| - 1;
      var before := BlockersInOrder(steps[..n]);
      IncreasingExtends(before, n);
      BlockersAreTheFailures(steps[..n]);
      forall i | 0 <= i < |before|
        ensures FirstFailure(steps, before[i]) && steps[before[i]] == steps[..n][before[i]]
      {
        FirstFailureStays(steps, before[i]);
        FirstFailureIsStep(steps[..n], before[i]);
      }
      if FailsBlocking(steps[n]) && steps[n].blocker !in RunSteps(steps[..n]).blockers {
        NewFailure(steps);
        at := before + [n];
      } else {
        at := before;
      }
    }
  }

  lemma FirstFailureIsStep(steps: seq<Step>, k: nat)
    requires FirstFailure(steps, k)
    ensures k < |steps| && FailsBlocking(steps[k])
  {
  }

  lemma NewFailure(steps: seq<Step>)
    requires steps != []
    requires var last := steps[|steps| - 1];
             FailsBlocking(last) && !Reported(steps[..|steps| - 1], last.blocker)
    ensures FirstFailure(steps, |steps| - 1)
  {
  }

  predicate Recommends(step: Step, recommendation: string) {
    || (step.PushCheck? && !step.passed && step.recommendation == recommendation)
    || (step.Recommend? && step.recommendation == recommendation)
  }

  ghost predicate Recommended(steps: seq<Step>, recommendation: string) {
    exists k :: 0 <= k < |steps| && Recommends(steps[k], recommendation)
  }

  /** A report recommends what a failed check or a bare recommendation asked for, and nothing else. */
  lemma {:induction false} RecommendationsInWords(steps: seq<Step>, recommendation: string)
    ensures recommendation in RunSteps(steps).recommendations <==> Recommended(steps, recommendation)
    decreases |steps|
  {
    if steps != [] {
      var n := |steps| - 1;
      RecommendationsInWords(steps[..n], recommendation);
      if Recommended(steps[..n], recommendation) {
        var k :| 0 <= k < n && Recommends(steps[..n][k], recommendation);
        assert Recommends(steps[k], recommendation);
      }
      assert Recommends(steps[n], recommendation) ==> Recommended(steps, recommendation);
    }
  }

  /** Ready and degraded mean that no blocking check failed; any blocker caps the score at 40. */
  lemma ReadyMeansNothingBlocks(steps: seq<Step>)
    ensures var result := Finalize(RunSteps(steps));
            && (result.verdict.Ready? || result.verdict.Degraded? ==>
                  !AnyFailsBlocking(steps) && result.blockingReasons == [] && result.score >= 60)
            && (AnyFailsBlocking(steps) ==> result.blockingReasons != [] && result.score <= 40)
            && 0 <= result.score <= 100
  {
    hide AnyHardBlock, AnyHardStep, AnyFailsBlocking, RunSteps;
    BlockersAreTheFailures(steps);
    ChecksFollowSteps(steps);
  }

  function Rank(verdict: Verdict): nat {
    match verdict
    case Ready => 0
    case Degraded => 1
    case NotReady => 2
    case Unknown => 3
  }

  lemma {:induction false} PenaltyGrows(steps: seq<Step>, more: seq<Step>)
    ensures TotalPenalty(steps) <= TotalPenalty(steps + more)
    ensures AnyFailsBlocking(steps) ==> AnyFailsBlocking(steps + more)
    ensures AnyHardStep(steps) ==> AnyHardStep(steps + more)
    decreases |more|
  {
    if more == [] {
      assert steps + more == steps;
    } else {
      var k := |more| - 1;
      PenaltyGrows(steps, more[..k]);
      assert steps + more == (steps + more[..k]) + [more[k]];
      assert (steps + more)[..|steps| + k] == steps + more[..k];
      FailsExtends(steps + more[..k], more[k]);
    }
  }

  /** Pushing more checks or warnings never improves a verdict or raises a score. */
  lemma MoreChecksNeverHelp(steps: seq<Step>, more: seq<Step>)
    ensures var first, longer := Finalize(RunSteps(steps)), Finalize(RunSteps(steps + more));
            Rank(first.verdict) <= Rank(longer.verdict) && longer.score <= first.score
  {
    hide AnyHardBlock, AnyHardStep, AnyFailsBlocking, RunSteps, TotalPenalty;
    PenaltyGrows(steps, more);
    VerdictIsExact(steps);
    VerdictIsExact(steps + more);
    BlockersAreTheFailures(steps);
    BlockersAreTheFailures(steps + more);
    ChecksFollowSteps(steps);
    ChecksFollowSteps(steps + more);
  }

  lemma {:induction false} PenaltyWithout(steps: seq<Step>, i: nat)
    requires i < |steps|
    ensures TotalPenalty(steps) == TotalPenalty(Sums.Without(steps, i)) + StepPenalty(steps[i])
    decreases |steps|
  {
    var k := |steps| - 1;
    if i == k {
      assert Sums.Without(steps, i) == steps[..k];
    } else {
      PenaltyWithout(steps[..k], i);
      assert Sums.Without(steps, i)[..k - 1] == Sums.Without(steps[..k], i);
    }
  }

  lemma {:induction false} PenaltyPermutation(steps: seq<Step>, other: seq<Step>)
    requires multiset(steps) == multiset(other)
    ensures TotalPenalty(steps) == TotalPenalty(other)
    decreases |steps|
  {
    if steps == [] {
      assert |multiset(other)| == 0;
    } else {
      assert steps[0] in multiset(other);
      var j :| 0 <= j < |other| && other[j] == steps[0];
      Sums.MultisetWithout(steps, 0);
      Sums.MultisetWithout(other, j);
      PenaltyPermutation(Sums.Without(steps, 0), Sums.Without(other, j));
      PenaltyWithout(steps, 0);
      PenaltyWithout(other, j);
    }
  }

  lemma FailuresPermutation(steps: seq<Step>, other: seq<Step>)
    requires multiset(steps) == multiset(other)
    ensures AnyFailsBlocking(steps) ==> AnyFailsBlocking(other)
    ensures AnyHardStep(steps) ==> AnyHardStep(other)
  {
    forall k | 0 <= k < |steps|
      ensures exists j :: 0 <= j < |other| && other[j] == steps[k]
    {
      assert steps[k] in multiset(other);
    }
  }

  /** Neither the verdict nor the score depends on the order of the checks. */
  lemma CheckOrderDoesNotMatter(steps: seq<Step>, other: seq<Step>)
    requires multiset(steps) == multiset(other)
    ensures var a, b := Finalize(RunSteps(steps)), Finalize(RunSteps(other));
            && a.verdict == b.verdict && a.score == b.score
            && (forall reason :: reason in a.blockingReasons <==> reason in b.blockingReasons)
  {
    hide AnyHardBlock, AnyHardStep, AnyFailsBlocking, RunSteps, TotalPenalty, Reported;
    PenaltyPermutation(steps, other);
    FailuresPermutation(steps, other);
    FailuresPermutation(other, steps);
    VerdictIsExact(steps);
    VerdictIsExact(other);
    BlockersAreTheFailures(steps);
    BlockersAreTheFailures(other);
    ChecksFollowSteps(steps);
    ChecksFollowSteps(other);
    forall reason
      ensures Reported(steps, reason) <==> Reported(other, reason)
    {
      ReportedPermutation(steps, other, reason);
      ReportedPermutation(other, steps, reason);
    }
  }

  lemma ReportedPermutation(steps: seq<Step>, other: seq<Step>, reason: string)
    requires multiset(steps) == multiset(other)
    ensures Reported(steps, reason) ==> Reported(other, reason)
  {
    if Reported(steps, reason) {
      var k :| 0 <= k < |steps| && FailsBlocking(steps[k]) && steps[k].blocker == reason;
      assert steps[k] in multiset(other);
      var j :| 0 <= j < |other| && other[j] == steps[k];
    }
  }

  /** The shared library's reading of the checks alone, which never sees the list of blockers. */
  function VerdictFromChecks(checks: seq<Check>, score: int): Verdict {
    if AnyHardBlock(checks) then Unknown
    else if AnyBlock(checks) || score < 60 then NotReady
    else if score >= 85 then Ready
    else Degraded
  }

  /** It gives the same verdict as the list of blockers, for the capped score and for the uncapped one. */
  lemma BothVerdictsAgree(steps: seq<Step>)
    ensures var report := RunSteps(steps);
            && VerdictFromChecks(report.checks, CappedScore(report)) == Finalize(report).verdict
            && VerdictFromChecks(report.checks, Clamp(100 - Penalties(report.checks))) == Finalize(report).verdict
  {
    hide AnyHardBlock, AnyBlock, AnyFailsBlocking, AnyHardStep, AnyMissingContext, RunSteps;
    BlockersAreTheFailures(steps);
    ChecksFollowSteps(steps);
    MissingContextIsHard(steps);
  }

  lemma MissingContextIsHard(steps: seq<Step>)
    ensures AnyMissingContext(steps) ==> AnyHardStep(steps)
  {
    if AnyMissingContext(steps) {
      var k :| 0 <= k < |steps| && steps[k].MissingContext?;
      assert HardStep(steps[k]);
    }
  }
}
