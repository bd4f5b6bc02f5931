/** The gate and the classifier of a shadow run agree, and a would-be order is what its evidence supports. */
module ShadowLaws {
  import opened Wrappers
  import opened ShadowOutcome
  import opened ShadowRun

  function DecisionOf(c: Conditions, evaluation: Evaluation, row: Signal, riskId: Id, rules: Rules): Option<Decision> {
    var plan := PlanFor(c, evaluation, row, riskId, rules);
    if plan.Success? then Some(plan.value.decision) else None
  }

  /** The approved notional buys more than half of the smallest quantity. */
  predicate Buyable(row: Signal, price: real)
    requires price > 0.0
  {
    row.suggestedNotional * 100000000.0 > 0.5 * price
  }

  lemma BuyableIff(row: Signal, price: real)
    requires price > 0.0
    ensures RoundDp8(row.suggestedNotional / price) > 0.0 <==> Buyable(row, price)
  {
    hide RoundDp8;
    RoundDp8IsClose(row.suggestedNotional / price);
    QuotientOrder(row.suggestedNotional, price, DP8);
  }

  lemma QuotientOrder(notional: real, price: real, scale: real)
    requires price > 0.0
    ensures notional / price * scale > 0.5 <==> notional * scale > 0.5 * price
  {
    var x := notional / price * scale;
    assert x * price == notional * scale by {
      assert notional / price * price == notional;
    }
    ScalesOrder(x, 0.5, price);
  }

  lemma ScalesOrder(a: real, b: real, price: real)
    requires price > 0.0
    ensures a > b <==> a * price > b * price
    ensures a == b ==> a * price == b * price
  {
    var d := a - b;
    assert d * price == a * price - b * price;
    SameSign(d, price);
  }

  lemma SameSign(d: real, price: real)
    requires price > 0.0
    ensures d > 0.0 <==> d * price > 0.0
  {
    if d <= 0.0 {
      assert -d >= 0.0 && (-d) * price >= 0.0;
    }
  }

  /** With the gate shut a plan names the first obstacle, in the order kill switch, strategy, timeframe, feed, candles. */
  lemma ShutGateDecides(c: Conditions, evaluation: Evaluation, row: Signal, riskId: Id, rules: Rules)
    requires !GateOpen(c)
    ensures DecisionOf(c, evaluation, row, riskId, rules) == Some(
              if c.killSwitchActive then SkippedKillSwitch
              else if !c.strategyEnabled then SkippedDisabledStrategy
              else if c.configTimeframe != c.timeframe then Error
              else if RequiredFeedBlock(c).Some? then SkippedStaleFeed
              else CandleDataStale)
  {
    hide ResolvedPrice, RoundDp8, RiskReasonsToShadow, FeedBlockReason;
  }

  /** With the gate open it says what became of the signal. */
  lemma OpenGateDecides(c: Conditions, evaluation: Evaluation, row: Signal, riskId: Id, rules: Rules)
    requires GateOpen(c)
    ensures DecisionOf(c, evaluation, row, riskId, rules) == Some(
              if evaluation.signal.None? then NoSignal
              else if rules(row) != [] then RiskRejected
              else if ResolvedPrice(c).None? || !Buyable(row, ResolvedPrice(c).value.price) then SkippedStalePrice
              else WouldSubmit)
  {
    hide ResolvedPrice, RoundDp8, RiskReasonsToShadow, CandleBlockReason, FeedBlockReason, Buyable;
    if ResolvedPrice(c).Some? {
      BuyableIff(row, ResolvedPrice(c).value.price);
    }
  }

  predicate Evaluated(decision: Decision) {
    decision.NoSignal? || decision.RiskRejected? || decision.SkippedStalePrice? || decision.WouldSubmit?
  }

  /** The four decisions that talk about a signal occur exactly when the gate let the strategy be evaluated. */
  lemma GateAndClassifierAgree(c: Conditions, evaluation: Evaluation, row: Signal, riskId: Id, rules: Rules)
    ensures var decision := DecisionOf(c, evaluation, row, riskId, rules);
            decision.Some? && (Evaluated(decision.value) <==> GateOpen(c))
  {
    hide GateOpen, DecisionOf;
    if GateOpen(c) {
      OpenGateDecides(c, evaluation, row, riskId, rules);
    } else {
      ShutGateDecides(c, evaluation, row, riskId, rules);
    }
  }

  /**
   * A run that says anything about a signal evaluated a candle: enough history was there, and its last candle closed
   * no longer ago than the larger of the allowed signal age and one interval, a millisecond of truncation aside.
   */
  lemma EvaluatedRunsHaveAFreshCandle(c: Conditions, evaluation: Evaluation, row: Signal, riskId: Id, rules: Rules)
    requires DecisionOf(c, evaluation, row, riskId, rules).Some?
    requires Evaluated(DecisionOf(c, evaluation, row, riskId, rules).value)
    ensures c.candles != [] && |c.candles| >= c.requiredCandles
    ensures c.now - c.candles[|c.candles| - 1].closeTime < (Max(c.maxSignalAgeMs, c.intervalMs) + 1) * 1000
            || Max(c.maxSignalAgeMs, c.intervalMs) < 0
  {
    hide DecisionOf, GateOpen;
    GateAndClassifierAgree(c, evaluation, row, riskId, rules);
    OpenGateHasFreshCandle(c);
  }

  lemma OpenGateHasFreshCandle(c: Conditions)
    requires GateOpen(c)
    ensures c.candles != [] && |c.candles| >= c.requiredCandles
    ensures c.now - c.candles[|c.candles| - 1].closeTime < (Max(c.maxSignalAgeMs, c.intervalMs) + 1) * 1000
            || Max(c.maxSignalAgeMs, c.intervalMs) < 0
  {
  }

  /** The age limit of a trusted price is the looser of two, at least a second, and at most what 32 bits of seconds hold. */
  lemma ThresholdIsTheLooserLimit(maxSignalAgeMs: int, staleFeedThresholdSeconds: nat)
    requires staleFeedThresholdSeconds <= U32_MAX
    ensures var t := PriceThresholdSeconds(maxSignalAgeMs, staleFeedThresholdSeconds);
            && 1 <= t <= U32_MAX && t >= staleFeedThresholdSeconds
            && ((t + 1) * 1000 > maxSignalAgeMs || t == U32_MAX)
            && (t == 1 || t == staleFeedThresholdSeconds || t * 1000 <= maxSignalAgeMs)
  {
  }

  /** Behind a shut gate the plan does not depend on the strategy, the signal, the risk rules or any default. */
  lemma DefaultsNeverLeak(c: Conditions, e: Evidence)
    requires !GateOpen(c)
    requires e.price.Some? ==> e.price.value.price > 0.0
    ensures EvaluateShadowOutcome(ClassifierInput(c, e)) == EvaluateShadowOutcome(ClassifierInput(c, NO_EVIDENCE))
  {
    hide ResolvedPrice, RoundDp8, RiskReasonsToShadow, FeedBlockReason, CandleBlockReason;
  }

  /** The fallback to the configured notional never decides anything. */
  lemma ConfiguredNotionalIsNeverUsed(c: Conditions, notional: real, evaluation: Evaluation, row: Signal, riskId: Id,
                                      rules: Rules)
    ensures PlanFor(c.(configNotional := notional), evaluation, row, riskId, rules)
            == PlanFor(c, evaluation, row, riskId, rules)
  {
    hide ResolveShadowPrice, RoundDp8, CandleBlockReason, FeedBlockReason, RiskReasonsToShadow;
  }

  /** Unless the strategy needs a live feed, the feed only adds a warning: what is decided is the same for any feed. */
  lemma FeedOnlyWarns(c: Conditions, feed: Option<Feed>, evaluation: Evaluation, row: Signal, riskId: Id, rules: Rules)
    requires !c.requiresLiveFeed
    ensures DecisionOf(c.(feed := feed), evaluation, row, riskId, rules)
            == DecisionOf(c, evaluation, row, riskId, rules)
  {
    hide ResolveShadowPrice, RoundDp8, CandleBlockReason, FeedBlockReason, RiskReasonsToShadow;
  }

  /**
   * A run would submit exactly when the gate is open, the strategy signalled, no risk rule failed, and a fresh
   * positive price buys more than half of the smallest quantity.
   */
  lemma WouldSubmitIff(c: Conditions, evaluation: Evaluation, row: Signal, riskId: Id, rules: Rules)
    ensures DecisionOf(c, evaluation, row, riskId, rules) == Some(WouldSubmit)
            <==> GateOpen(c) && evaluation.signal.Some? && rules(row) == []
                 && ResolvedPrice(c).Some? && Buyable(row, ResolvedPrice(c).value.price)
  {
    hide GateOpen, DecisionOf, Buyable, ResolvedPrice;
    if GateOpen(c) {
      OpenGateDecides(c, evaluation, row, riskId, rules);
    } else {
      ShutGateDecides(c, evaluation, row, riskId, rules);
    }
  }

  /**
   * The order it would submit has the signal's symbol and side, the approved notional, and a positive quantity whose
   * value differs from that notional by at most half of the smallest quantity, at a price that is no older than the
   * looser of the two age limits, one second at least.
   */
  lemma WouldSubmitOrder(c: Conditions, evaluation: Evaluation, row: Signal, riskId: Id, rules: Rules)
    requires DecisionOf(c, evaluation, row, riskId, rules) == Some(WouldSubmit)
    ensures PlanFor(c, evaluation, row, riskId, rules).Success?
    ensures var plan := PlanFor(c, evaluation, row, riskId, rules).value;
            && plan.price == ResolvedPrice(c) && plan.price.Some? && plan.price.value.price > 0.0
            && evaluation.signal.Some?
            && plan.wouldSubmit.Some?
            && var order := plan.wouldSubmit.value;
               var price := plan.price.value.price;
               && order.symbol == evaluation.signal.value.identity.symbol
               && order.side == evaluation.signal.value.identity.side
               && order.quoteNotional == row.suggestedNotional
               && order.riskDecisionId == Some(riskId)
               && order.quantity > 0.0
               && -0.5 * price <= (order.quantity * price - order.quoteNotional) * 100000000.0 <= 0.5 * price
               && (order.quantity * 100000000.0).Floor as real == order.quantity * 100000000.0
    ensures var source := PlanFor(c, evaluation, row, riskId, rules).value.price.value.source;
            var age := c.now - (if source.MarketTick? && c.tick.Some? then c.tick.value.receivedAt
                                else if c.latestCandle.Some? then c.latestCandle.value.closeTime else c.now);
            && (source.MarketTick? ==> c.tick.Some?) && (source.ClosedCandle? ==> c.latestCandle.Some?)
            && (age <= c.staleFeedThresholdSeconds * 1_000_000 || age <= c.maxSignalAgeMs * 1_000 || age <= 1_000_000)
  {
    hide ResolvedPrice, CandleBlockReason, FeedBlockReason, RoundDp8, RiskReasonsToShadow, WarningList;
    WouldSubmitIff(c, evaluation, row, riskId, rules);
    var price := ResolvedPrice(c).value.price;
    BuyableIff(row, price);
    RoundingCost(row.suggestedNotional, price);
    RoundDp8IsClose(row.suggestedNotional / price);
    TrustedPriceIsYoung(c);
    ShadowPlanOfApproved(c, evaluation, row, riskId, rules);
  }

  lemma TrustedPriceIsYoung(c: Conditions)
    requires ResolvedPrice(c).Some?
    ensures var source := ResolvedPrice(c).value.source;
            var age := c.now - (if source.MarketTick? && c.tick.Some? then c.tick.value.receivedAt
                                else if c.latestCandle.Some? then c.latestCandle.value.closeTime else c.now);
            && (source.MarketTick? ==> c.tick.Some?) && (source.ClosedCandle? ==> c.latestCandle.Some?)
            && (age <= c.staleFeedThresholdSeconds * 1_000_000 || age <= c.maxSignalAgeMs * 1_000 || age <= 1_000_000)
  {
    hide TruncatedQuotient;
    TruncationShortens(c.maxSignalAgeMs);
  }

  lemma TruncationShortens(ms: int)
    ensures ms >= 0 ==> TruncatedQuotient(ms, 1000) * 1000 <= ms
    ensures ms < 0 ==> TruncatedQuotient(ms, 1000) <= 0
  {
  }

  lemma ShadowPlanOfApproved(c: Conditions, evaluation: Evaluation, row: Signal, riskId: Id, rules: Rules)
    requires GateOpen(c) && evaluation.signal.Some? && rules(row) == [] && ResolvedPrice(c).Some?
    requires RoundDp8(row.suggestedNotional / ResolvedPrice(c).value.price) > 0.0
    ensures var identity := evaluation.signal.value.identity;
            PlanFor(c, evaluation, row, riskId, rules)
            == Success(Plan(WouldSubmit, Completed, Some(evaluation.signal.value.id), Some(riskId),
                            Some(Intent(identity.symbol, identity.side,
                                        RoundDp8(row.suggestedNotional / ResolvedPrice(c).value.price),
                                        row.suggestedNotional, Some(riskId))),
                            WarningList(FeedWarning(c)), ResolvedPrice(c)))
  {
    hide ResolvedPrice, CandleBlockReason, FeedBlockReason, RoundDp8, RiskReasonsToShadow, WarningList;
  }

  lemma RoundingCost(notional: real, price: real)
    requires price > 0.0
    ensures var q := RoundDp8(notional / price);
            -0.5 * price <= (q * price - notional) * DP8 <= 0.5 * price
  {
    hide RoundDp8;
    RoundDp8IsClose(notional / price);
    QuotientError(notional, price, RoundDp8(notional / price), DP8);
  }

  lemma QuotientError(notional: real, price: real, q: real, scale: real)
    requires price > 0.0 && -0.5 <= (q - notional / price) * scale <= 0.5
    ensures -0.5 * price <= (q * price - notional) * scale <= 0.5 * price
  {
    var x := (q - notional / price) * scale;
    assert x * price == (q * price - notional) * scale by {
      assert notional / price * price == notional;
      Regroup(q, notional / price, price, scale);
    }
    Scales(-0.5, x, 0.5, price);
  }

  lemma Regroup(q: real, exact: real, price: real, scale: real)
    ensures (q - exact) * scale * price == (q * price - exact * price) * scale
  {
  }

  lemma Scales(low: real, x: real, high: real, price: real)
    requires price > 0.0 && low <= x <= high
    ensures low * price <= x * price <= high * price
  {
    ScalesOrder(low, x, price);
    ScalesOrder(x, high, price);
  }
}
