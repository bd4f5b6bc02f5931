/** Every plan of a shadow run, in terms of what the run read. */
module ShadowPlans {
  import opened Wrappers
  import opened ShadowOutcome
  import opened ShadowRun
  import ShadowLaws

  // ---------------------------------------------------------------------------------------------
  // The gate

  /** An age in microseconds, whole milliseconds of which are within a limit; fractions are dropped toward zero. */
  predicate Within(age: int, limitMs: int) {
    if limitMs >= 0 then age < (limitMs + 1) * 1000 else age <= limitMs * 1000
  }

  lemma WholeMilliseconds(age: int, limitMs: int)
    ensures TruncatedQuotient(age, 1000) <= limitMs <==> Within(age, limitMs)
  {
  }

  predicate FeedUsable(feed: Option<Feed>) { feed.Some? && feed.value.isFresh && feed.value.isConnected }

  predicate EnoughCandles(c: Conditions) { c.candles != [] && |c.candles| >= c.requiredCandles }

  /** The last candle closed within the allowed signal age or within one interval. */
  predicate LastCandleYoung(c: Conditions)
    requires c.candles != []
  {
    var age := c.now - c.candles[|c.candles| - 1].closeTime;
    Within(age, c.maxSignalAgeMs) || Within(age, c.intervalMs)
  }

  predicate CandlesUsable(c: Conditions) {
    EnoughCandles(c) && LastCandleYoung(c) && (c.continuity.Good? || c.continuity.Unknown?)
  }

  lemma CandleBlockInWords(c: Conditions)
    ensures CandleBlock(c) ==
            if !EnoughCandles(c) then Some(InsufficientHistoryReason)
            else if !LastCandleYoung(c) then Some(CandleDataStaleReason)
            else if c.continuity.Bad? || c.continuity.Degraded? || c.continuity.InsufficientData? then Some(DataStale)
            else None
  {
    hide TruncatedQuotient, Within;
    if c.candles != [] {
      var age := c.now - c.candles[|c.candles| - 1].closeTime;
      WholeMilliseconds(age, c.maxSignalAgeMs);
      WholeMilliseconds(age, c.intervalMs);
    }
  }

  /** The strategy is evaluated exactly when nothing stands in its way. */
  lemma GateInWords(c: Conditions)
    ensures GateOpen(c) <==>
            && !c.killSwitchActive && c.strategyEnabled && c.configTimeframe == c.timeframe
            && (c.requiresLiveFeed ==> FeedUsable(c.feed)) && CandlesUsable(c)
  {
    hide CandleBlock, LastCandleYoung;
    CandleBlockInWords(c);
  }

  /** A feed that is not required only warns, and by one name when it is stale or degraded. */
  lemma FeedWarningInWords(c: Conditions)
    ensures FeedWarning(c) ==
            if c.requiresLiveFeed || FeedUsable(c.feed) then None
            else if c.feed.None? then Some(MarketFeedUnavailable)
            else Some(MarketFeedStaleWarning)
  {
  }

  // ---------------------------------------------------------------------------------------------
  // The plans

  function Skip(decision: Decision, status: Status, reason: ShadowReason): Plan {
    Plan(decision, status, None, None, None, [reason], None)
  }

  /** Behind a shut gate a plan names the first obstacle and carries nothing else. */
  lemma ShutGatePlan(c: Conditions, evaluation: Evaluation, row: Signal, riskId: Id, rules: Rules)
    requires !GateOpen(c)
    ensures PlanFor(c, evaluation, row, riskId, rules) == Success(
              if c.killSwitchActive then Skip(SkippedKillSwitch, Rejected, KillSwitchActive)
              else if !c.strategyEnabled then Skip(SkippedDisabledStrategy, Rejected, StrategyDisabledReason)
              else if c.configTimeframe != c.timeframe then Skip(Error, Errored, UnsupportedTimeframe)
              else if c.requiresLiveFeed && c.feed.None? then Skip(SkippedStaleFeed, Rejected, MarketFeedUnavailable)
              else if c.requiresLiveFeed && !c.feed.value.isFresh then Skip(SkippedStaleFeed, Rejected, StaleFeed)
              else if c.requiresLiveFeed && !c.feed.value.isConnected then
                Skip(SkippedStaleFeed, Rejected, MarketFeedDegraded)
              else if !EnoughCandles(c) then Skip(CandleDataStale, Rejected, InsufficientHistoryReason)
              else if !LastCandleYoung(c) then Skip(CandleDataStale, Rejected, CandleDataStaleReason)
              else Skip(CandleDataStale, Rejected, DataStale))
  {
    hide ResolvedPrice, RoundDp8, RiskReasonsToShadow, CandleBlock, LastCandleYoung;
    CandleBlockInWords(c);
  }

  function Warnings(c: Conditions): seq<ShadowReason> {
    if c.requiresLiveFeed || FeedUsable(c.feed) then []
    else if c.feed.None? then [MarketFeedUnavailable]
    else [MarketFeedStaleWarning]
  }

  /** Behind an open gate, without a signal: the strategy's own reason and any warning of the feed. */
  lemma NoSignalPlan(c: Conditions, evaluation: Evaluation, row: Signal, riskId: Id, rules: Rules)
    requires GateOpen(c) && evaluation.signal.None?
    ensures var reason := match evaluation.reason
                          case ConditionsNotMet => ConditionsNotMetReason
                          case InsufficientHistory => InsufficientHistoryReason
                          case StrategyDisabled => StrategyDisabledReason
                          case _ => NoSignalReason;
            PlanFor(c, evaluation, row, riskId, rules)
            == Success(Plan(NoSignal, Completed, None, None, None, [reason] + Warnings(c), None))
  {
    hide ResolvedPrice, RoundDp8, RiskReasonsToShadow, CandleBlock, RequiredFeedBlock, FeedWarning;
    FeedWarningInWords(c);
  }

  /** The rules that refused a signal, each by its code and in order. */
  lemma RefusedPlan(c: Conditions, evaluation: Evaluation, row: Signal, riskId: Id, rules: Rules)
    requires GateOpen(c) && evaluation.signal.Some? && rules(row) != []
    ensures var plan := PlanFor(c, evaluation, row, riskId, rules);
            && plan.Success?
            && plan.value == Plan(RiskRejected, Rejected, Some(evaluation.signal.value.id), Some(riskId), None,
                                  plan.value.reasons, None)
            && |plan.value.reasons| == |rules(row)|
            && forall i :: 0 <= i < |rules(row)| ==> ReasonName(plan.value.reasons[i]) == RiskCode(rules(row)[i])
  {
    hide ResolvedPrice, RoundDp8, CandleBlock, RequiredFeedBlock, FeedWarning, RiskReasonToShadow, ReasonName, RiskCode;
    forall i | 0 <= i < |rules(row)|
      ensures ReasonName(RiskReasonToShadow(rules(row)[i])) == RiskCode(rules(row)[i])
    {
      CodesSurvive(rules(row)[i]);
    }
  }

  /** An approved signal without a price, and with one that buys too little. */
  lemma StalePricePlan(c: Conditions, evaluation: Evaluation, row: Signal, riskId: Id, rules: Rules)
    requires GateOpen(c) && evaluation.signal.Some? && rules(row) == []
    requires ResolvedPrice(c).Some? ==> row.suggestedNotional * 100000000.0 <= 0.5 * ResolvedPrice(c).value.price
    ensures PlanFor(c, evaluation, row, riskId, rules)
            == Success(Plan(SkippedStalePrice, Rejected, Some(evaluation.signal.value.id), Some(riskId), None,
                            [if ResolvedPrice(c).None? then StalePrice else InvalidPrice], ResolvedPrice(c)))
  {
    hide ResolvedPrice, RoundDp8, RiskReasonsToShadow, CandleBlock, RequiredFeedBlock, FeedWarning;
    if ResolvedPrice(c).Some? {
      ShadowLaws.BuyableIff(row, ResolvedPrice(c).value.price);
    }
  }

  /** An approved signal that would be submitted; the order itself is described by WouldSubmitOrder. */
  lemma SubmittedPlan(c: Conditions, evaluation: Evaluation, row: Signal, riskId: Id, rules: Rules)
    requires GateOpen(c) && evaluation.signal.Some? && rules(row) == [] && ResolvedPrice(c).Some?
    requires row.suggestedNotional * 100000000.0 > 0.5 * ResolvedPrice(c).value.price
    ensures var plan := PlanFor(c, evaluation, row, riskId, rules);
            && plan.Success? && plan.value.wouldSubmit.Some?
            && plan.value == Plan(WouldSubmit, Completed, Some(evaluation.signal.value.id), Some(riskId),
                                  plan.value.wouldSubmit, Warnings(c), ResolvedPrice(c))
  {
    hide ResolvedPrice, RoundDp8, RiskReasonsToShadow, CandleBlock, RequiredFeedBlock, FeedWarning;
    ShadowLaws.BuyableIff(row, ResolvedPrice(c).value.price);
    FeedWarningInWords(c);
  }

  /** The price a run trusts: its tick, or else the close of its latest candle, if positive and within the age limit. */
  lemma ResolvedPriceInWords(c: Conditions)
    ensures var limit := PriceThresholdSeconds(c.maxSignalAgeMs, c.staleFeedThresholdSeconds) * 1_000_000;
            ResolvedPrice(c) ==
            if c.tick.Some? && c.tick.value.price > 0.0 && c.now - c.tick.value.receivedAt <= limit then
              Some(Price(MarketTick, c.tick.value.price))
            else if c.latestCandle.Some? && c.latestCandle.value.close > 0.0
                    && c.now - c.latestCandle.value.closeTime <= limit then
              Some(Price(ClosedCandle, c.latestCandle.value.close))
            else None
  {
  }

  // ---------------------------------------------------------------------------------------------
  // The classifier by itself

  /** A refusal without reasons, and a candle block of any other kind, which no run produces. */
  lemma ClassifierEdges(input: Input)
    requires !input.killSwitchActive && input.strategyEnabled && input.timeframeMatches && input.requiredFeedBlock.None?
    requires input.price.Some? ==> input.price.value.price != 0.0
    ensures input.candleBlock.Some? ==>
              EvaluateShadowOutcome(input) == Success(
                Skip(if input.candleBlock.value in {CandleDataStaleReason, DataStale, InsufficientHistoryReason}
                     then CandleDataStale else Error, Rejected, input.candleBlock.value))
    ensures input.candleBlock.None? && input.signal.Some? && input.riskDecision != Some(Approved)
            && input.riskReasons == [] ==>
              EvaluateShadowOutcome(input) == Success(
                Plan(RiskRejected, Rejected, Some(input.signal.value.id), input.riskDecisionId, None,
                     [RiskRejectedReason], None))
    ensures EvaluateShadowOutcome(input).Failure?
            <==> input.candleBlock.None? && input.signal.Some? && input.riskDecision == Some(Approved)
                 && input.price.Some? && input.approvedNotional.None?
  {
    hide RoundDp8, RiskReasonToShadow;
  }

  // ---------------------------------------------------------------------------------------------
  // Reasons by name

  function RiskCode(reason: RiskReason): string {
    match reason
    case RiskKillSwitchActive => "kill_switch_active"
    case RiskMaxOpenPositionsExceeded => "max_open_positions_exceeded"
    case RiskMaxDailyLossExceeded => "max_daily_loss_exceeded"
    case RiskMaxWeeklyLossExceeded => "max_weekly_loss_exceeded"
    case RiskMaxConsecutiveLossesExceeded => "max_consecutive_losses_exceeded"
    case RiskSignalTooOld => "signal_too_old"
    case RiskDuplicateOrderDetected => "duplicate_order_detected"
    case RiskDataStale => "data_stale"
    case RiskPositionNotionalExceeded => "position_notional_exceeded"
    case RiskCooldownActive => "cooldown_active"
    case RiskUnsupportedState => "unsupported_state"
  }

  function ReasonName(reason: ShadowReason): string {
    match reason
    case NoSignalReason => "no_signal"
    case ConditionsNotMetReason => "conditions_not_met"
    case InsufficientHistoryReason => "insufficient_history"
    case StrategyDisabledReason => "strategy_disabled"
    case KillSwitchActive => "kill_switch_active"
    case CandleDataStaleReason => "candle_data_stale"
    case StalePrice => "stale_price"
    case StaleFeed => "stale_feed"
    case MarketFeedStaleWarning => "market_feed_stale_warning"
    case MarketFeedUnavailable => "market_feed_unavailable"
    case MarketFeedDegraded => "market_feed_degraded"
    case UnsupportedTimeframe => "unsupported_timeframe"
    case InvalidPrice => "invalid_price"
    case RiskRejectedReason => "risk_rejected"
    case MaxOpenPositionsExceeded => "max_open_positions_exceeded"
    case MaxDailyLossExceeded => "max_daily_loss_exceeded"
    case MaxWeeklyLossExceeded => "max_weekly_loss_exceeded"
    case MaxConsecutiveLossesExceeded => "max_consecutive_losses_exceeded"
    case SignalTooOld => "signal_too_old"
    case DuplicateOrderDetected => "duplicate_order_detected"
    case DataStale => "data_stale"
    case PositionNotionalExceeded => "position_notional_exceeded"
    case CooldownActive => "cooldown_active"
    case UnsupportedState => "unsupported_state"
  }

  /** A shadow run stores the risk rule's own code as its reason. */
  lemma CodesSurvive(reason: RiskReason)
    ensures ReasonName(RiskReasonToShadow(reason)) == RiskCode(reason)
  {
  }
}
