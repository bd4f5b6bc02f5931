/**
 * How often one signal is bought. Two risk rules stand between a bought signal and its next approval: the cooldown
 * after the last trade, and the age a signal may reach. The other rules can only refuse more.
 */
module SignalPurchases {
  import opened Wrappers
  import opened Accounting
  import opened PaperBook
  import opened OrderPipeline

  // ---------------------------------------------------------------------------------------------
  // When a bought signal can be approved again

  /** The date of a filled order, those that close positions among them. */
  ghost predicate TradedAt(orders: map<string, StoredOrder>, fills: seq<Fill>, date: Time) {
    || (exists key :: key in orders && orders[key].order.filledAt == Some(date))
    || (exists k :: 0 <= k < |fills| && fills[k].orderId.Closing? && fills[k].filledAt == date)
  }

  ghost predicate LastTrade(orders: map<string, StoredOrder>, fills: seq<Fill>, last: Time) {
    && TradedAt(orders, fills, last)
    && (forall key :: key in orders && orders[key].order.filledAt.Some? ==> orders[key].order.filledAt.value <= last)
    && (forall k :: 0 <= k < |fills| && fills[k].orderId.Closing? ==> fills[k].filledAt <= last)
  }

  ghost predicate ApprovedFrom(orders: map<string, StoredOrder>, fills: seq<Fill>, signalCreatedAt: Time, from: Time,
                               limits: Limits) {
    exists at :: at >= from && Approves(orders, fills, signalCreatedAt, at, limits)
  }

  /** After the last trade a signal can still be approved exactly when it outlives the cooldown. */
  lemma LaterApprovalIff(orders: map<string, StoredOrder>, fills: seq<Fill>, last: Time, signalCreatedAt: Time,
                         limits: Limits)
    requires LastTrade(orders, fills, last)
    ensures ApprovedFrom(orders, fills, signalCreatedAt, last, limits)
            <==> last + 1_000_000 * limits.cooldownSeconds <= signalCreatedAt + 1_000 * limits.maxSignalAgeMs
  {
    if last + limits.Cooldown() <= signalCreatedAt + limits.MaxAge() {
      assert Approves(orders, fills, signalCreatedAt, last + limits.Cooldown(), limits);
    }
  }

  /** The two rules, in microseconds: no trade within the cooldown, and a signal no older than it may be. */
  lemma ApprovesInWords(orders: map<string, StoredOrder>, fills: seq<Fill>, signalCreatedAt: Time, at: Time,
                        limits: Limits)
    ensures Approves(orders, fills, signalCreatedAt, at, limits) <==>
            && at <= signalCreatedAt + 1_000 * limits.maxSignalAgeMs
            && (forall date :: TradedAt(orders, fills, date) ==> date + 1_000_000 * limits.cooldownSeconds <= at)
  {
    if forall date :: TradedAt(orders, fills, date) ==> date + 1_000_000 * limits.cooldownSeconds <= at {
      forall key | key in orders && orders[key].order.filledAt.Some?
        ensures at - orders[key].order.filledAt.value >= limits.Cooldown()
      {
        assert TradedAt(orders, fills, orders[key].order.filledAt.value);
      }
      forall k | 0 <= k < |fills| && fills[k].orderId.Closing?
        ensures at - fills[k].filledAt >= limits.Cooldown()
      {
        assert TradedAt(orders, fills, fills[k].filledAt);
      }
    }
  }

  predicate CooldownOutlastsSignals(limits: Limits) { 1_000 * limits.cooldownSeconds > limits.maxSignalAgeMs }

  const DEFAULT_LIMITS := Limits(900, 5_000)

  lemma DefaultCooldownOutlastsSignals()
    ensures CooldownOutlastsSignals(DEFAULT_LIMITS)
  {
  }

  /** By default: fifteen minutes after the last trade, on signals at most five seconds old. */
  lemma DefaultLimitsInWords()
    ensures DEFAULT_LIMITS.cooldownSeconds == 15 * 60 && DEFAULT_LIMITS.maxSignalAgeMs == 5 * 1000
  {
  }

  ghost predicate TradedSince(orders: map<string, StoredOrder>, at: Time) {
    exists key :: key in orders && orders[key].order.filledAt.Some? && orders[key].order.filledAt.value >= at
  }

  /** When the cooldown is longer than signals may live, a signal is never approved after a trade made since it was stored. */
  lemma NoApprovalAfterTrade(orders: map<string, StoredOrder>, fills: seq<Fill>, signalCreatedAt: Time, at: Time,
                             limits: Limits)
    requires CooldownOutlastsSignals(limits) && TradedSince(orders, signalCreatedAt)
    ensures !Approves(orders, fills, signalCreatedAt, at, limits)
  {
  }

  // ---------------------------------------------------------------------------------------------
  // Over runs

  function SignalOf(run: Run): string { run.request.parts.signalId }

  /** Every evaluation of a signal sees when it was stored, under a cooldown longer than signals may live. */
  predicate Evaluates(step: Step, createdAt: string -> Time) {
    step.Begin? ==>
      && step.request.signalCreatedAt == createdAt(step.request.parts.signalId)
      && CooldownOutlastsSignals(step.limits)
  }

  lemma OrdersStay(w: World, step: Step)
    ensures forall key :: key in w.orders ==> key in Apply(w, step).orders && Apply(w, step).orders[key] == w.orders[key]
  {
    hide AfterLookUp, AfterReload, Accepted, Approves, BookFills, Key;
  }

  /**
   * Once anything was traded since a signal was stored, the signal's own purchase included, no further run is ever
   * approved for it: only runs approved before that trade can still buy it.
   */
  lemma {:induction false} NoApprovalAfterPurchase(steps: seq<Step>, more: seq<Step>, signalId: string,
                                                   createdAt: string -> Time)
    requires TradedSince(RunSteps(steps).orders, createdAt(signalId))
    requires forall k :: 0 <= k < |more| ==> Evaluates(more[k], createdAt)
    ensures TradedSince(RunSteps(steps + more).orders, createdAt(signalId))
    ensures forall id :: id in RunSteps(steps + more).runs && SignalOf(RunSteps(steps + more).runs[id]) == signalId ==>
              id in RunSteps(steps).runs
    decreases |more|
  {
    hide Apply, TradedSince, Evaluates;
    if more == [] {
      assert steps + more == steps;
    } else {
      var k := |more| - 1;
      NoApprovalAfterPurchase(steps, more[..k], signalId, createdAt);
      assert (steps + more)[..|steps| + k] == steps + more[..k] && (steps + more)[|steps| + k] == more[k];
      TradedStays(RunSteps(steps + more[..k]), more[k], createdAt(signalId));
      RunsAreApproved(RunSteps(steps + more[..k]), more[k], signalId, createdAt);
    }
  }

  lemma TradedStays(w: World, step: Step, at: Time)
    requires TradedSince(w.orders, at)
    ensures TradedSince(Apply(w, step).orders, at)
  {
    hide Apply;
    OrdersStay(w, step);
    var key :| key in w.orders && w.orders[key].order.filledAt.Some? && w.orders[key].order.filledAt.value >= at;
    assert Apply(w, step).orders[key] == w.orders[key];
  }

  lemma RunsAreApproved(w: World, step: Step, signalId: string, createdAt: string -> Time)
    requires TradedSince(w.orders, createdAt(signalId)) && Evaluates(step, createdAt)
    ensures forall id :: id in Apply(w, step).runs && SignalOf(Apply(w, step).runs[id]) == signalId ==>
              id in w.runs && SignalOf(w.runs[id]) == signalId
  {
    hide AfterLookUp, AfterReload, AfterCreate, Accepted, Approves, BookFills, TradedSince, CooldownOutlastsSignals;
    if step.Begin? && step.request.parts.signalId == signalId {
      NoApprovalAfterTrade(w.orders, BookFills(w.ops), step.request.signalCreatedAt, step.evaluatedAt, step.limits);
    }
  }

  /** A run that can still store an order. */
  predicate CanCreate(run: Run) { run.phase.Approved? || run.phase.Prepared? }

  /** An order is not filled before its signal was stored. */
  predicate FilledAfterSignal(w: World, step: Step) {
    step.Create? && step.run in w.runs ==> step.at >= w.runs[step.run].request.signalCreatedAt
  }

  /** No run is approved for a signal while another one on it may still store its order. */
  predicate OneAtATime(w: World, step: Step) {
    step.Begin? ==>
      forall id :: id in w.runs && CanCreate(w.runs[id]) ==> SignalOf(w.runs[id]) != step.request.parts.signalId
  }

  predicate Serial(steps: seq<Step>, createdAt: string -> Time) {
    steps == [] ||
    var before, last := steps[..|steps| - 1], steps[|steps| - 1];
    && Serial(before, createdAt) && Evaluates(last, createdAt)
    && FilledAfterSignal(RunSteps(before), last) && OneAtATime(RunSteps(before), last)
  }

  ghost predicate Buys(w: World, key: string, signalId: string) {
    key in w.orders && w.orders[key].correlationId in w.runs && SignalOf(w.runs[w.orders[key].correlationId]) == signalId
  }

  ghost predicate BoughtOnce(w: World) {
    forall a, b, signalId :: Buys(w, a, signalId) && Buys(w, b, signalId) ==> a == b
  }

  ghost predicate SeesSignals(w: World, createdAt: string -> Time) {
    forall id :: id in w.runs ==> w.runs[id].request.signalCreatedAt == createdAt(SignalOf(w.runs[id]))
  }

  /** Orders are filled since their signal was stored. */
  ghost predicate FilledSince(w: World, createdAt: string -> Time) {
    forall key :: key in w.orders ==>
      && w.orders[key].correlationId in w.runs && w.orders[key].order.filledAt.Some?
      && w.orders[key].order.filledAt.value >= createdAt(SignalOf(w.runs[w.orders[key].correlationId]))
  }

  /** At most one run can still buy a signal, and none can buy a bought one. */
  ghost predicate OneBuyer(w: World) {
    && (forall a, b :: (&& a in w.runs && b in w.runs && CanCreate(w.runs[a]) && CanCreate(w.runs[b])
                        && SignalOf(w.runs[a]) == SignalOf(w.runs[b])) ==> a == b)
    && (forall id, key :: id in w.runs && CanCreate(w.runs[id]) ==> !Buys(w, key, SignalOf(w.runs[id])))
  }

  ghost predicate InTurn(w: World, createdAt: string -> Time) {
    BoughtOnce(w) && SeesSignals(w, createdAt) && FilledSince(w, createdAt) && OneBuyer(w)
  }

  lemma BegunSignalIsNotBought(w: World, step: Step, createdAt: string -> Time, key: string)
    requires FilledSince(w, createdAt) && step.Begin? && Evaluates(step, createdAt)
    requires Approves(w.orders, BookFills(w.ops), step.request.signalCreatedAt, step.evaluatedAt, step.limits)
    ensures !Buys(w, key, step.request.parts.signalId)
  {
    hide Approves, BookFills, CooldownOutlastsSignals;
    if Buys(w, key, step.request.parts.signalId) {
      assert TradedSince(w.orders, createdAt(step.request.parts.signalId));
      NoApprovalAfterTrade(w.orders, BookFills(w.ops), step.request.signalCreatedAt, step.evaluatedAt, step.limits);
    }
  }

  lemma BeginKeepsTurn(w: World, step: Step, createdAt: string -> Time)
    requires InTurn(w, createdAt) && step.Begin? && Evaluates(step, createdAt) && OneAtATime(w, step)
    ensures InTurn(Apply(w, step), createdAt)
  {
    hide Approves, BookFills, Accepted, CooldownOutlastsSignals;
    var next := Apply(w, step);
    if next != w {
      forall key
        ensures !Buys(w, key, step.request.parts.signalId)
      {
        BegunSignalIsNotBought(w, step, createdAt, key);
      }
      AddedRunBuysNothing(w, next, step.run, createdAt);
    }
  }

  lemma AddedRunBuysNothing(w: World, next: World, id: RunId, createdAt: string -> Time)
    requires FilledSince(w, createdAt) && id !in w.runs && id in next.runs
    requires next.orders == w.orders && next.runs == w.runs[id := next.runs[id]]
    ensures forall key, s :: Buys(next, key, s) <==> Buys(w, key, s)
  {
    assert forall key :: key in w.orders ==> w.orders[key].correlationId in w.runs;
  }

  /** A run that only moves on can create no more than before, and orders stay. */
  lemma PhaseKeepsTurn(w: World, id: RunId, phase: Phase, createdAt: string -> Time)
    requires InTurn(w, createdAt) && id in w.runs && (CanCreate(Run(w.runs[id].request, phase)) ==> CanCreate(w.runs[id]))
    ensures InTurn(SetPhase(w, id, phase), createdAt)
  {
    var next := SetPhase(w, id, phase);
    assert forall key, s :: Buys(next, key, s) <==> Buys(w, key, s);
  }

  lemma CreateBuysItsSignal(w: World, id: RunId, at: Time, createdAt: string -> Time)
    requires FilledSince(w, createdAt) && id in w.runs && w.runs[id].phase.Prepared?
    requires AfterCreate(id, w.runs[id], w.orders, w.nextOrder, at).Unbooked?
    ensures var next := Apply(w, Create(id, at));
            forall key, s :: Buys(next, key, s) <==> Buys(w, key, s) || (key == Key(w.runs[id]) && s == SignalOf(w.runs[id]))
  {
    hide Apply, AfterCreate, Key, OrderSymbol, FilledOrder;
    CreateShape(w, id, at);
  }

  lemma CreateKeepsTurn(w: World, id: RunId, at: Time, createdAt: string -> Time)
    requires InTurn(w, createdAt) && id in w.runs && w.runs[id].phase.Prepared?
    requires at >= w.runs[id].request.signalCreatedAt
    requires AfterCreate(id, w.runs[id], w.orders, w.nextOrder, at).Unbooked?
    ensures InTurn(Apply(w, Create(id, at)), createdAt)
  {
    hide Apply, AfterCreate, Key, OrderSymbol, Buys, BoughtOnce, OneBuyer;
    CreateShape(w, id, at);
    CreateBuysItsSignal(w, id, at, createdAt);
    CreateKeepsBuyers(w, id, at);
  }

  lemma CreateKeepsBuyers(w: World, id: RunId, at: Time)
    requires BoughtOnce(w) && OneBuyer(w) && id in w.runs && w.runs[id].phase.Prepared?
    requires AfterCreate(id, w.runs[id], w.orders, w.nextOrder, at).Unbooked?
    requires var next := Apply(w, Create(id, at));
             forall key, s :: Buys(next, key, s) <==> Buys(w, key, s) || (key == Key(w.runs[id]) && s == SignalOf(w.runs[id]))
    ensures BoughtOnce(Apply(w, Create(id, at))) && OneBuyer(Apply(w, Create(id, at)))
  {
    hide Apply, AfterCreate, Key, OrderSymbol, FilledOrder, Buys;
    CreateShape(w, id, at);
    assert CanCreate(w.runs[id]);
  }

  lemma StepKeepsTurn(w: World, step: Step, createdAt: string -> Time)
    requires InTurn(w, createdAt) && Evaluates(step, createdAt) && FilledAfterSignal(w, step) && OneAtATime(w, step)
    ensures InTurn(Apply(w, step), createdAt)
  {
    hide InTurn, AfterLookUp, AfterReload, AfterCreate, Accepted, Approves, BookFills, CooldownOutlastsSignals;
    match step
    case Begin(_, _, _, _) => BeginKeepsTurn(w, step, createdAt);
    case LookUp(id) =>
      if id in w.runs && w.runs[id].phase.Approved? {
        PhaseKeepsTurn(w, id, AfterLookUp(w.runs[id], w.orders), createdAt);
      }
    case Create(id, at) =>
      if id in w.runs && w.runs[id].phase.Prepared? {
        var phase := AfterCreate(id, w.runs[id], w.orders, w.nextOrder, at);
        if phase.Unbooked? {
          CreateKeepsTurn(w, id, at, createdAt);
        } else {
          PhaseKeepsTurn(w, id, phase, createdAt);
        }
      }
    case Reload(id) =>
      if id in w.runs && w.runs[id].phase.Collided? {
        ReloadEnds(w.runs[id], w.orders);
        PhaseKeepsTurn(w, id, AfterReload(w.runs[id], w.orders), createdAt);
      }
    case Book(id, now) =>
      if id in w.runs && w.runs[id].phase.Unbooked? {
        var order := w.runs[id].phase.stored.order;
        PhaseKeepsTurn(w, id, Finished(OrderCreated(order.id)), createdAt);
        OpsDoNotMatter(SetPhase(w, id, Finished(OrderCreated(order.id))), Apply(w, step), createdAt);
      }
    case Die(id) =>
      if id in w.runs && !w.runs[id].phase.Finished? {
        PhaseKeepsTurn(w, id, Died, createdAt);
      }
    case ClosePosition(_, _, _, _) => OpsDoNotMatter(w, Apply(w, step), createdAt);
    case MarkBook(_, _) => OpsDoNotMatter(w, Apply(w, step), createdAt);
  }

  lemma ReloadEnds(run: Run, orders: map<string, StoredOrder>)
    ensures AfterReload(run, orders).Finished?
  {
  }

  lemma OpsDoNotMatter(w: World, next: World, createdAt: string -> Time)
    requires InTurn(w, createdAt) && next.(ops := w.ops) == w
    ensures InTurn(next, createdAt)
  {
    assert forall key, s :: Buys(next, key, s) <==> Buys(w, key, s);
  }

  lemma {:induction false} SerialKeepsTurn(steps: seq<Step>, createdAt: string -> Time)
    requires Serial(steps, createdAt)
    ensures InTurn(RunSteps(steps), createdAt)
    decreases |steps|
  {
    hide Apply, InTurn, Evaluates, FilledAfterSignal, OneAtATime;
    StartIsInTurn(createdAt);
    if steps != [] {
      SerialKeepsTurn(steps[..|steps| - 1], createdAt);
      StepKeepsTurn(RunSteps(steps[..|steps| - 1]), steps[|steps| - 1], createdAt);
    }
  }

  lemma StartIsInTurn(createdAt: string -> Time)
    ensures InTurn(START, createdAt)
  {
  }

  /**
   * Under a cooldown longer than signals may live, as the default one is, runs that take turns on a signal buy it at
   * most once, whatever the runs on other signals and the operators do meanwhile. Racing runs can buy it more often.
   */
  lemma SerialRunsBuyASignalOnce(steps: seq<Step>, createdAt: string -> Time)
    requires Serial(steps, createdAt)
    ensures BoughtOnce(RunSteps(steps))
  {
    hide BoughtOnce, RunSteps, Serial;
    SerialKeepsTurn(steps, createdAt);
  }
}
