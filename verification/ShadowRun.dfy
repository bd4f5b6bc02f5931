/** One shadow observation: the gate, the evaluation behind it, the classifier's explanation and the stored run. */
module ShadowRun {
  import opened Wrappers
  import opened ShadowOutcome
  import opened ShadowSignals

  /** What a run reads before it decides anything. */
  datatype Conditions = Conditions(
    killSwitchActive: bool,
    strategyEnabled: bool,
    configTimeframe: string,
    timeframe: string,
    configNotional: real,
    maxSignalAgeMs: int,
    staleFeedThresholdSeconds: nat,
    requiresLiveFeed: bool,
    feed: Option<Feed>,
    candles: seq<Candle>,
    requiredCandles: int,
    intervalMs: int,
    continuity: Continuity,
    tick: Option<Tick>,
    latestCandle: Option<Candle>,
    now: Time)

  datatype Evaluation = Evaluation(reason: SignalReason, signal: Option<Signal>)

  /** The rules that reject a signal, given the row the risk check is made for. */
  type Rules = Signal -> seq<RiskReason>

  function RequiredFeedBlock(c: Conditions): Option<ShadowReason> {
    if c.requiresLiveFeed then FeedBlockReason(c.feed) else None
  }

  function FeedWarning(c: Conditions): Option<ShadowReason> {
    if c.requiresLiveFeed || FeedBlockReason(c.feed).None? then None
    else Some(OptionalFeedWarning(FeedBlockReason(c.feed).value))
  }

  function CandleBlock(c: Conditions): Option<ShadowReason> {
    CandleBlockReason(c.candles, c.requiredCandles, c.maxSignalAgeMs, c.intervalMs, c.continuity, c.now)
  }

  predicate GateOpen(c: Conditions) {
    && !c.killSwitchActive && c.strategyEnabled && c.configTimeframe == c.timeframe
    && RequiredFeedBlock(c).None? && CandleBlock(c).None?
  }

  function Assess(id: Id, row: Signal, rules: Rules): RiskEvaluation {
    var reasons := rules(row);
    RiskEvaluation(id, if reasons == [] then Approved else Refused,
                   if reasons == [] then Some(row.suggestedNotional) else None, reasons)
  }

  function ResolvedPrice(c: Conditions): (r: Option<Price>)
    ensures r.Some? ==> r.value.price > 0.0
  {
    ResolveShadowPrice(c.tick, c.latestCandle, c.now, PriceThresholdSeconds(c.maxSignalAgeMs, c.staleFeedThresholdSeconds))
  }

  /** What the gated part of a run leaves behind. */
  datatype Evidence = Evidence(
    signal: Option<Signal>,
    signalReason: SignalReason,
    risk: Option<RiskEvaluation>,
    price: Option<Price>)

  const NO_EVIDENCE := Evidence(None, ConditionsNotMet, None, None)

  /** `row` is the stored row of the generated signal, when there is one. */
  function Gather(c: Conditions, evaluation: Evaluation, row: Signal, riskId: Id, rules: Rules): (e: Evidence)
    ensures e.price.Some? ==> e.price.value.price > 0.0
  {
    if !GateOpen(c) then NO_EVIDENCE
    else if evaluation.signal.None? then NO_EVIDENCE.(signalReason := evaluation.reason)
    else
      var risk := Assess(riskId, row, rules);
      Evidence(evaluation.signal, evaluation.reason, Some(risk), if risk.decision.Approved? then ResolvedPrice(c) else None)
  }

  function ClassifierInput(c: Conditions, e: Evidence): (input: Input)
    ensures input.price == e.price
  {
    Input(c.killSwitchActive, c.strategyEnabled, RequiredFeedBlock(c), FeedWarning(c), CandleBlock(c),
          c.configTimeframe == c.timeframe, e.signal, e.signalReason,
          if e.risk.Some? then Some(e.risk.value.id) else None,
          if e.risk.Some? then Some(e.risk.value.decision) else None,
          if e.risk.Some? then e.risk.value.reasons else [],
          e.price,
          if e.risk.Some? && e.risk.value.approvedNotional.Some? then e.risk.value.approvedNotional
          else Some(c.configNotional))
  }

  function PlanFor(c: Conditions, evaluation: Evaluation, row: Signal, riskId: Id, rules: Rules)
    : Result<Plan, OutcomeError>
  {
    EvaluateShadowOutcome(ClassifierInput(c, Gather(c, evaluation, row, riskId, rules)))
  }

  /** A run is always decided: the approved notional is never missing. It names a signal and a decision, or neither. */
  lemma PlanNamesItsSignal(c: Conditions, evaluation: Evaluation, row: Signal, riskId: Id, rules: Rules)
    ensures var r := PlanFor(c, evaluation, row, riskId, rules);
            && r.Success?
            && r.value.signalId == (if GateOpen(c) && evaluation.signal.Some? then Some(evaluation.signal.value.id) else None)
            && r.value.riskDecisionId == (if GateOpen(c) && evaluation.signal.Some? then Some(riskId) else None)
  {
    hide CandleBlockReason, ResolvedPrice, RoundDp8, RiskReasonsToShadow;
  }

  lemma PlanWithoutSignal(c: Conditions, evaluation: Evaluation, riskId: Id, rules: Rules)
    requires !GateOpen(c) || evaluation.signal.None?
    ensures var e := if GateOpen(c) then NO_EVIDENCE.(signalReason := evaluation.reason) else NO_EVIDENCE;
            var r := EvaluateShadowOutcome(ClassifierInput(c, e));
            && r.Success? && r.value.signalId == None
            && forall row :: PlanFor(c, evaluation, row, riskId, rules) == r
  {
    hide EvaluateShadowOutcome, CandleBlockReason, ResolvedPrice;
    var anyRow := Signal(0, Identity("", "", "", 0, Buy, ConditionsNotMet), 0.0, 0);
    PlanNamesItsSignal(c, evaluation, anyRow, riskId, rules);
  }

  // ---------------------------------------------------------------------------------------------
  // The tables

  datatype StoredRun = StoredRun(plan: Plan, signalId: Option<Id>, evaluatedCandleOpenTime: Option<Time>)

  datatype RunError = SignalFailure(signalError: SignalError) | OutcomeFailure(outcomeError: OutcomeError)

  class ShadowService {
    var signals: seq<Signal>
    var riskSignals: map<Id, Id>
    var runs: seq<StoredRun>

    /** Every stored run that was decided with a signal names one that exists, the one its risk decision is about. */
    ghost predicate Consistent()
      reads this
    {
      && Unique(signals)
      && (forall k :: 0 <= k < |runs| && runs[k].signalId.Some? ==>
            && FindById(signals, runs[k].signalId.value).Some?
            && runs[k].plan.riskDecisionId.Some?
            && runs[k].plan.riskDecisionId.value in riskSignals
            && riskSignals[runs[k].plan.riskDecisionId.value] == runs[k].signalId.value)
    }

    constructor ()
      ensures Consistent() && signals == [] && riskSignals == map[] && runs == []
    {
      signals, riskSignals, runs := [], map[], [];
    }

    method InsertSignalDeduped(signal: Signal) returns (r: Result<Signal, RunError>)
      modifies this`signals
      ensures match InsertDeduped(old(signals), signal)
              case Failure(e) => r == Failure(SignalFailure(e)) && signals == old(signals)
              case Success(out) => r == Success(out.row) && signals == out.table
    {
      var out := InsertDeduped(signals, signal);
      match out {
        case Failure(e) =>
          r := Failure(SignalFailure(e));
        case Success(inserted) =>
          signals := inserted.table;
          r := Success(inserted.row);
      }
    }

    method PersistShadowResult(plan: Plan, signal: Option<Signal>, evaluatedCandleOpenTime: Option<Time>)
      returns (r: Result<StoredRun, RunError>)
      modifies this`runs
      ensures match StabilizeShadowSignalId(signals, plan.signalId, signal)
              case Failure(e) => r == Failure(SignalFailure(e)) && runs == old(runs)
              case Success(id) =>
                r == Success(StoredRun(plan, id, evaluatedCandleOpenTime)) && runs == old(runs) + [r.value]
    {
      var stable := StabilizeShadowSignalId(signals, plan.signalId, signal);
      match stable {
        case Failure(e) =>
          r := Failure(SignalFailure(e));
        case Success(id) =>
          var run := StoredRun(plan, id, evaluatedCandleOpenTime);
          runs := runs + [run];
          r := Success(run);
      }
    }

    /**
     * Runs one observation. With generated identifiers that no other signal has, it always ends in a stored run, and
     * the stored run names the signal row its risk decision was made for, inserted now or long before.
     */
    method RunTestnetShadowOnce(c: Conditions, evaluation: Evaluation, riskId: Id, rules: Rules)
      returns (r: Result<StoredRun, RunError>)
      requires Consistent() && riskId !in riskSignals
      modifies this
      ensures !GateOpen(c) || evaluation.signal.None? ==> signals == old(signals) && riskSignals == old(riskSignals)
      ensures GateOpen(c) && evaluation.signal.Some?
              && (forall row :: row in old(signals) ==> row.id != evaluation.signal.value.id) ==>
                && r.Success?
                && InsertDeduped(old(signals), evaluation.signal.value).Success?
                && var out := InsertDeduped(old(signals), evaluation.signal.value).value;
                   && signals == out.table && riskSignals == old(riskSignals)[riskId := out.row.id]
                   && Success(r.value.plan) == PlanFor(c, evaluation, out.row, riskId, rules)
                   && r.value.signalId == Some(out.row.id)
                   && Consistent()
      ensures !GateOpen(c) || evaluation.signal.None? ==>
                && r.Success? && r.value.signalId.None? && Consistent()
                && forall row :: Success(r.value.plan) == PlanFor(c, evaluation, row, riskId, rules)
      ensures r.Success? ==>
                && runs == old(runs) + [r.value]
                && r.value.evaluatedCandleOpenTime
                   == if c.candles == [] then None else Some(c.candles[|c.candles| - 1].openTime)
      ensures r.Failure? ==> runs == old(runs)
    {
      hide EvaluateShadowOutcome, CandleBlockReason, ResolveShadowPrice, Assess, ClassifierInput, InsertDeduped, FindById;
      var signal: Option<Signal> := None;
      var signalReason := ConditionsNotMet;
      var risk: Option<RiskEvaluation> := None;
      var price: Option<Price> := None;
      if GateOpen(c) {
        signalReason := evaluation.reason;
        if evaluation.signal.Some? {
          var generated := evaluation.signal.value;
          ForeignIdStaysForeign(signals, generated);
          var inserted := InsertSignalDeduped(generated);
          if inserted.Failure? {
            return Failure(inserted.error);
          }
          var row := inserted.value;
          signal := Some(generated);
          var assessed := Assess(riskId, row, rules);
          riskSignals := riskSignals[riskId := row.id];
          risk := Some(assessed);
          if assessed.decision.Approved? {
            price := ResolvedPrice(c);
          }
          assert Evidence(signal, signalReason, risk, price) == Gather(c, evaluation, row, riskId, rules);
          PlanNamesItsSignal(c, evaluation, row, riskId, rules);
          EveryFoundStaysFound(old(signals), signals);
        }
      }
      if signal.None? {
        PlanWithoutSignal(c, evaluation, riskId, rules);
      }
      var planned := EvaluateShadowOutcome(ClassifierInput(c, Evidence(signal, signalReason, risk, price)));
      match planned {
        case Failure(e) =>
          r := Failure(OutcomeFailure(e));
        case Success(plan) =>
          r := PersistShadowResult(plan, signal,
                                   if c.candles == [] then None else Some(c.candles[|c.candles| - 1].openTime));
      }
    }
  }
}
