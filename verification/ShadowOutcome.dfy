/** The parts of a shadow evaluation: readiness of candles, price, and the classifier that explains the outcome. */
module ShadowOutcome {
  import opened Wrappers

  /** Microseconds. */
  type Time = int

  const U32_MAX := 0xFFFF_FFFF

  type Id = nat

  datatype Side = Buy | Sell

  datatype SignalReason =
    | ThreeConsecutiveHigherCloses | MomentumHigherCloses | TrendFilterMomentum | BreakoutAboveRecentHigh
    | VolumeConfirmedBreakout | VolatilityCompressionBreakout | RangeReversion | TrendPullbackContinuation
    | FailedBreakdownReclaim | ConditionsNotMet | InsufficientHistory | StrategyDisabled

  datatype RiskReason =
    | RiskKillSwitchActive | RiskMaxOpenPositionsExceeded | RiskMaxDailyLossExceeded | RiskMaxWeeklyLossExceeded
    | RiskMaxConsecutiveLossesExceeded | RiskSignalTooOld | RiskDuplicateOrderDetected | RiskDataStale
    | RiskPositionNotionalExceeded | RiskCooldownActive | RiskUnsupportedState

  datatype ShadowReason =
    | NoSignalReason | ConditionsNotMetReason | InsufficientHistoryReason | StrategyDisabledReason
    | KillSwitchActive | CandleDataStaleReason | StalePrice | StaleFeed | MarketFeedStaleWarning
    | MarketFeedUnavailable | MarketFeedDegraded | UnsupportedTimeframe | InvalidPrice | RiskRejectedReason
    | MaxOpenPositionsExceeded | MaxDailyLossExceeded | MaxWeeklyLossExceeded | MaxConsecutiveLossesExceeded
    | SignalTooOld | DuplicateOrderDetected | DataStale | PositionNotionalExceeded | CooldownActive
    | UnsupportedState

  datatype Decision =
    | NoSignal | RiskRejected | WouldSubmit | CandleDataStale | SkippedDisabledStrategy | SkippedKillSwitch
    | SkippedStalePrice | SkippedStaleFeed | Error

  datatype Status = Completed | Rejected | Errored

  datatype RiskDecision = Approved | Refused

  datatype RiskEvaluation = RiskEvaluation(
    id: Id,
    decision: RiskDecision,
    approvedNotional: Option<real>,
    reasons: seq<RiskReason>)

  /** The fields under which a signal is stored at most once. */
  datatype Identity = Identity(
    strategyId: string,
    symbol: string,
    timeframe: string,
    sourceCandleOpenTime: Time,
    side: Side,
    reason: SignalReason)

  datatype Signal = Signal(id: Id, identity: Identity, suggestedNotional: real, createdAt: Time)

  datatype PriceSource = MarketTick | ClosedCandle

  datatype Price = Price(source: PriceSource, price: real)

  datatype Intent = Intent(symbol: string, side: Side, quantity: real, quoteNotional: real, riskDecisionId: Option<Id>)

  datatype Plan = Plan(
    decision: Decision,
    status: Status,
    signalId: Option<Id>,
    riskDecisionId: Option<Id>,
    wouldSubmit: Option<Intent>,
    reasons: seq<ShadowReason>,
    price: Option<Price>)

  // ---------------------------------------------------------------------------------------------
  // Rounding

  function RoundHalfEven(x: real): int {
    var n := x.Floor;
    var rest := x - n as real;
    if rest < 0.5 then n else if rest > 0.5 then n + 1 else if n % 2 == 0 then n else n + 1
  }

  const DP8 := 100000000.0

  function RoundDp8(x: real): real { RoundHalfEven(x * DP8) as real / DP8 }

  lemma RoundsToNearest(x: real)
    ensures -0.5 <= RoundHalfEven(x) as real - x <= 0.5
    ensures RoundHalfEven(x) > 0 <==> x > 0.5
    ensures x - x.Floor as real == 0.5 ==> RoundHalfEven(x) % 2 == 0
  {
  }

  /** Rounding to eight places finds the nearest such number, and of two that are equally near the even one. */
  lemma RoundDp8IsClose(x: real)
    ensures -0.5 <= (RoundDp8(x) - x) * 100000000.0 <= 0.5
    ensures RoundDp8(x) > 0.0 <==> x * 100000000.0 > 0.5
    ensures (RoundDp8(x) * 100000000.0).Floor as real == RoundDp8(x) * 100000000.0
    ensures x * 100000000.0 - (x * 100000000.0).Floor as real == 0.5 ==> (RoundDp8(x) * 100000000.0).Floor % 2 == 0
  {
    hide RoundHalfEven;
    RoundsToNearest(x * DP8);
    var n := RoundHalfEven(x * DP8);
    assert RoundDp8(x) * 100000000.0 == n as real;
  }

  // ---------------------------------------------------------------------------------------------
  // Prices and candles

  datatype Tick = Tick(price: real, receivedAt: Time)

  datatype Candle = Candle(openTime: Time, closeTime: Time, close: real)

  function Max(a: int, b: int): int { if a >= b then a else b }

  /** Rust's integer division, which drops the fraction toward zero. */
  function TruncatedQuotient(a: int, b: nat): int
    requires b > 0
  {
    if a >= 0 then a / b else -((-a) / b)
  }

  function PriceThresholdSeconds(maxSignalAgeMs: int, staleFeedThresholdSeconds: nat): nat {
    var seconds := Max(staleFeedThresholdSeconds, Max(TruncatedQuotient(maxSignalAgeMs, 1000), 1));
    if seconds <= U32_MAX then seconds else U32_MAX
  }

  predicate Fresh(at: Time, now: Time, thresholdSeconds: nat) { now - at <= thresholdSeconds * 1_000_000 }

  /** A positive tick young enough, in microseconds, else such a close, else nothing. */
  function ResolveShadowPrice(tick: Option<Tick>, candle: Option<Candle>, now: Time, thresholdSeconds: nat)
    : (r: Option<Price>)
    ensures var tickIsGood := tick.Some? && tick.value.price > 0.0
                              && now - tick.value.receivedAt <= thresholdSeconds * 1_000_000;
            var closeIsGood := candle.Some? && candle.value.close > 0.0
                               && now - candle.value.closeTime <= thresholdSeconds * 1_000_000;
            r == if tickIsGood then Some(Price(MarketTick, tick.value.price))
                 else if closeIsGood then Some(Price(ClosedCandle, candle.value.close))
                 else None
  {
    if tick.Some? && tick.value.price > 0.0 && Fresh(tick.value.receivedAt, now, thresholdSeconds) then
      Some(Price(MarketTick, tick.value.price))
    else if candle.None? then None
    else if candle.value.close <= 0.0 || !Fresh(candle.value.closeTime, now, thresholdSeconds) then None
    else Some(Price(ClosedCandle, candle.value.close))
  }

  datatype Continuity = Good | Degraded | Bad | InsufficientData | Unknown

  function CandleBlockReason(candles: seq<Candle>, requiredCandles: int, maxSignalAgeMs: int, intervalMs: int,
                             continuity: Continuity, now: Time): Option<ShadowReason>
  {
    if |candles| < requiredCandles || candles == [] then Some(InsufficientHistoryReason)
    else if TruncatedQuotient(now - candles[|candles| - 1].closeTime, 1000) > Max(maxSignalAgeMs, intervalMs) then
      Some(CandleDataStaleReason)
    else if continuity.Bad? || continuity.Degraded? || continuity.InsufficientData? then Some(DataStale)
    else None
  }

  datatype Feed = Feed(isFresh: bool, isConnected: bool)

  function FeedBlockReason(feed: Option<Feed>): Option<ShadowReason> {
    if feed.None? then Some(MarketFeedUnavailable)
    else if !feed.value.isFresh then Some(StaleFeed)
    else if !feed.value.isConnected then Some(MarketFeedDegraded)
    else None
  }

  function OptionalFeedWarning(reason: ShadowReason): ShadowReason {
    if reason.StaleFeed? || reason.MarketFeedDegraded? then MarketFeedStaleWarning else reason
  }

  // ---------------------------------------------------------------------------------------------
  // The classifier

  datatype Input = Input(
    killSwitchActive: bool,
    strategyEnabled: bool,
    requiredFeedBlock: Option<ShadowReason>,
    feedWarning: Option<ShadowReason>,
    candleBlock: Option<ShadowReason>,
    timeframeMatches: bool,
    signal: Option<Signal>,
    signalReason: SignalReason,
    riskDecisionId: Option<Id>,
    riskDecision: Option<RiskDecision>,
    riskReasons: seq<RiskReason>,
    price: Option<Price>,
    approvedNotional: Option<real>)

  datatype OutcomeError = ApprovedNotionalMissing

  function Rejection(decision: Decision, reason: ShadowReason): Plan {
    Plan(decision, Rejected, None, None, None, [reason], None)
  }

  function WarningList(warning: Option<ShadowReason>): seq<ShadowReason> {
    if warning.Some? then [warning.value] else []
  }

  function SignalReasonToShadow(reason: SignalReason): ShadowReason {
    match reason
    case ConditionsNotMet => ConditionsNotMetReason
    case InsufficientHistory => InsufficientHistoryReason
    case StrategyDisabled => StrategyDisabledReason
    case _ => NoSignalReason
  }

  function RiskReasonToShadow(reason: RiskReason): ShadowReason {
    match reason
    case RiskKillSwitchActive => KillSwitchActive
    case RiskMaxOpenPositionsExceeded => MaxOpenPositionsExceeded
    case RiskMaxDailyLossExceeded => MaxDailyLossExceeded
    case RiskMaxWeeklyLossExceeded => MaxWeeklyLossExceeded
    case RiskMaxConsecutiveLossesExceeded => MaxConsecutiveLossesExceeded
    case RiskSignalTooOld => SignalTooOld
    case RiskDuplicateOrderDetected => DuplicateOrderDetected
    case RiskDataStale => DataStale
    case RiskPositionNotionalExceeded => PositionNotionalExceeded
    case RiskCooldownActive => CooldownActive
    case RiskUnsupportedState => UnsupportedState
  }

  function RiskReasonsToShadow(reasons: seq<RiskReason>): seq<ShadowReason> {
    if reasons == [] then [RiskRejectedReason]
    else seq(|reasons|, i requires 0 <= i < |reasons| => RiskReasonToShadow(reasons[i]))
  }

  /** Dividing by a zero price would panic; the price resolver never returns one. */
  function EvaluateShadowOutcome(input: Input): Result<Plan, OutcomeError>
    requires input.price.Some? ==> input.price.value.price != 0.0
  {
    if input.killSwitchActive then Success(Rejection(SkippedKillSwitch, KillSwitchActive))
    else if !input.strategyEnabled then Success(Rejection(SkippedDisabledStrategy, StrategyDisabledReason))
    else if !input.timeframeMatches then
      Success(Rejection(Error, UnsupportedTimeframe).(status := Errored))
    else if input.requiredFeedBlock.Some? then Success(Rejection(SkippedStaleFeed, input.requiredFeedBlock.value))
    else if input.candleBlock.Some? then
      var reason := input.candleBlock.value;
      Success(Rejection(if reason.CandleDataStaleReason? || reason.DataStale? || reason.InsufficientHistoryReason?
                        then CandleDataStale else Error, reason))
    else if input.signal.None? then
      Success(Plan(NoSignal, Completed, None, None, None,
                   [SignalReasonToShadow(input.signalReason)] + WarningList(input.feedWarning), None))
    else
      var signal := input.signal.value;
      if input.riskDecision != Some(Approved) then
        Success(Plan(RiskRejected, Rejected, Some(signal.id), input.riskDecisionId, None,
                     RiskReasonsToShadow(input.riskReasons), None))
      else if input.price.None? then
        Success(Plan(SkippedStalePrice, Rejected, Some(signal.id), input.riskDecisionId, None, [StalePrice], None))
      else if input.approvedNotional.None? then Failure(ApprovedNotionalMissing)
      else
        var quantity := RoundDp8(input.approvedNotional.value / input.price.value.price);
        if quantity <= 0.0 then
          Success(Plan(SkippedStalePrice, Rejected, Some(signal.id), input.riskDecisionId, None, [InvalidPrice],
                       input.price))
        else
          Success(Plan(WouldSubmit, Completed, Some(signal.id), input.riskDecisionId,
                       Some(Intent(signal.identity.symbol, signal.identity.side, quantity,
                                   input.approvedNotional.value, input.riskDecisionId)),
                       WarningList(input.feedWarning), input.price))
  }
}
