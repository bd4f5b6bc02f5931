/** What the racing pipeline runs guarantee about orders, their keys and the money they spend. */
module OrderPipelineLaws {
  import opened Wrappers
  import opened Accounting
  import opened PaperBook
  import opened IdempotencyKeys
  import opened OrderPipeline
  import PaperBookRuns
  import Market

  /**
   * Under any race an order is booked at most once, and exactly once when the run that created it got to the end.
   * A run that dies after creating its order leaves it unbooked for good.
   */
  lemma OrdersAreBookedAtMostOnce(steps: seq<Step>, key: string)
    requires key in RunSteps(steps).orders
    ensures var w := RunSteps(steps);
            var stored := w.orders[key];
            && BookedOnce(w.ops)
            && stored.correlationId in w.runs
            && (Booked(w.ops, stored.order.id)
                <==> w.runs[stored.correlationId].phase == Finished(OrderCreated(stored.order.id)))
  {
    hide BuildIdempotencyKey, Accepted, OrderOk, RunSteps;
    RunKeepsInv(steps);
    var w := RunSteps(steps);
    CreatorIsPast(w, key);
    if Booked(w.ops, w.orders[key].order.id) {
      var k :| 0 <= k < |w.ops| && w.ops[k].OrderFilled? && w.ops[k].order.id == w.orders[key].order.id;
      assert BookedOk(w, k);
    }
  }

  /** Every booking is of an order some run created, for its symbol, at its close, for exactly its approved notional. */
  lemma BookingsSpendTheApprovedNotional(steps: seq<Step>, k: nat)
    requires k < |RunSteps(steps).ops| && RunSteps(steps).ops[k].OrderFilled?
    ensures var w := RunSteps(steps);
            var order := w.ops[k].order;
            exists id :: id in w.runs && w.runs[id].phase == Finished(OrderCreated(order.id))
                         && order.symbol == OrderSymbol(w.runs[id].request.parts)
                         && FillPrice(order) == w.runs[id].request.close
                         && forall t :: PaperBookRuns.OpCash(t, w.ops[k]) == -w.runs[id].request.notional
  {
    hide Inv, RunSteps, FillPrice, PaperBookRuns.OpCash;
    RunKeepsInv(steps);
    var w := RunSteps(steps);
    var id := BookedByRun(w, k);
    BookedOrderSpends(w.ops[k].order, w.ops[k].now, w.runs[id].request);
  }

  lemma BookedByRun(w: World, k: nat) returns (id: RunId)
    requires Inv(w) && k < |w.ops| && w.ops[k].OrderFilled?
    ensures var order := w.ops[k].order;
            && id in w.runs && w.runs[id].phase == Finished(OrderCreated(order.id))
            && order.symbol == OrderSymbol(w.runs[id].request.parts) && order.executionState == "PAPER_FILLED"
            && order.filledQty > 0.0 && order.filledPrice == Some(w.runs[id].request.close)
            && w.runs[id].request.close * order.filledQty == w.runs[id].request.notional
  {
    hide OrderOk, Inv;
    var key := BookedKey(w, k);
    BookedOrderFields(w, key);
    id := w.orders[key].correlationId;
  }

  lemma BookedKey(w: World, k: nat) returns (key: string)
    requires Inv(w) && k < |w.ops| && w.ops[k].OrderFilled?
    ensures key in w.orders && OrderOk(w, key) && w.orders[key].order == w.ops[k].order
    ensures w.orders[key].correlationId in w.runs
    ensures w.runs[w.orders[key].correlationId].phase == Finished(OrderCreated(w.ops[k].order.id))
  {
    hide Key, OrderOk, RunOk, BookedOnce, Booked;
    assert BookedOk(w, k);
    key :| key in w.orders && w.orders[key].order == w.ops[k].order
           && w.orders[key].correlationId in w.runs
           && w.runs[w.orders[key].correlationId].phase == Finished(OrderCreated(w.ops[k].order.id));
  }

  lemma BookedOrderFields(w: World, key: string)
    requires key in w.orders && OrderOk(w, key)
    ensures var order := w.orders[key].order;
            var id := w.orders[key].correlationId;
            && id in w.runs
            && order.symbol == OrderSymbol(w.runs[id].request.parts) && order.executionState == "PAPER_FILLED"
            && order.filledQty > 0.0 && order.filledPrice == Some(w.runs[id].request.close)
            && w.runs[id].request.close * order.filledQty == w.runs[id].request.notional
  {
    hide Key;
  }

  lemma BookedOrderSpends(order: Order, at: Time, request: Request)
    requires order.executionState == "PAPER_FILLED" && order.filledQty > 0.0
    requires order.filledPrice == Some(request.close) && request.close * order.filledQty == request.notional
    ensures FillPrice(order) == request.close
    ensures forall t :: PaperBookRuns.OpCash(t, PaperBookRuns.OrderFilled(order, at)) == -request.notional
  {
  }

  /**
   * A stored order names the normal form of the symbol its run was started for: trimmed, in capitals, otherwise
   * character by character the requested one. So does a booking of it.
   */
  lemma StoredSymbolsAreNormal(steps: seq<Step>, key: string)
    requires key in RunSteps(steps).orders
    ensures var w := RunSteps(steps);
            var stored := w.orders[key];
            && stored.correlationId in w.runs
            && Market.NormalFormOf(stored.order.symbol, w.runs[stored.correlationId].request.parts.symbol)
  {
    hide RunSteps, RunOk, BookedOk, BookedOnce, Booked, BuildIdempotencyKey, Market.NormalFormOf, Market.KnownStrategy;
    RunKeepsInv(steps);
    var w := RunSteps(steps);
    assert OrderOk(w, key);
    Market.NewSymbolIsNormalForm(w.runs[w.orders[key].correlationId].request.parts.symbol);
  }

  /**
   * What a finished run reports is so: a created order is its own and is booked, a reused order is the one another
   * run stored under the same key, and a refusal names the first check the request fails. The error for a duplicate
   * key without an order never occurs.
   */
  lemma OutcomesAreTrue(steps: seq<Step>, id: RunId)
    requires id in RunSteps(steps).runs && RunSteps(steps).runs[id].phase.Finished?
    ensures var w := RunSteps(steps);
            var run := w.runs[id];
            match run.phase.outcome
            case OrderCreated(order) =>
              && Key(run) in w.orders && w.orders[Key(run)].order.id == order
              && w.orders[Key(run)].correlationId == id && Booked(w.ops, order)
            case OrderReused(order) =>
              && Key(run) in w.orders && w.orders[Key(run)].order.id == order
              && w.orders[Key(run)].correlationId in w.runs
              && w.orders[Key(run)].correlationId != id
              && Key(w.runs[w.orders[Key(run)].correlationId]) == Key(run)
            case Rejected(error) =>
              && (error == CloseNotPositive <==> run.request.close <= 0.0)
              && (error == InvalidQuantity <==> run.request.close > 0.0)
              && (error == InvalidQuantity ==> run.request.notional <= 0.0)
  {
    hide BuildIdempotencyKey, Accepted, OrderOk, RunSteps, BookedOk, BookedOnce, Booked;
    RunKeepsInv(steps);
    var w := RunSteps(steps);
    assert RunOk(w, id);
    if w.runs[id].phase.outcome.OrderReused? {
      CreatorIsPast(w, Key(w.runs[id]));
    }
  }

  lemma AcceptedStrategyIsColonFree(parts: KeyParts)
    requires Accepted(parts)
    ensures ColonFree(parts.strategyId)
  {
    Market.KnownStrategyHasNoColon(parts.strategyId);
  }

  function OrderOf(outcome: Outcome): Option<Id> {
    match outcome
    case OrderCreated(order) => Some(order)
    case OrderReused(order) => Some(order)
    case Rejected(_) => None
  }

  /**
   * Two finished runs report one order exactly when they agree on strategy, signal, risk decision, symbol, side and
   * candle; and of runs that report one order, at most one created it. Generated identifiers print without colons,
   * and every strategy a run can start for does too.
   */
  lemma SameOrderExactlyForSameParts(steps: seq<Step>, a: RunId, b: RunId)
    requires var w := RunSteps(steps);
             && a in w.runs && b in w.runs && w.runs[a].phase.Finished? && w.runs[b].phase.Finished?
             && OrderOf(w.runs[a].phase.outcome).Some? && OrderOf(w.runs[b].phase.outcome).Some?
             && PlainIds(w.runs[a].request.parts) && PlainIds(w.runs[b].request.parts)
    ensures var w := RunSteps(steps);
            && (OrderOf(w.runs[a].phase.outcome) == OrderOf(w.runs[b].phase.outcome)
                <==> w.runs[a].request.parts == w.runs[b].request.parts)
            && (w.runs[a].request.parts == w.runs[b].request.parts && a != b ==>
                  !(w.runs[a].phase.outcome.OrderCreated? && w.runs[b].phase.outcome.OrderCreated?))
  {
    hide BuildIdempotencyKey, Accepted, OrderOk, RunSteps, BookedOk, BookedOnce, Booked;
    RunKeepsInv(steps);
    var w := RunSteps(steps);
    assert RunOk(w, a) && RunOk(w, b);
    AcceptedStrategyIsColonFree(w.runs[a].request.parts);
    AcceptedStrategyIsColonFree(w.runs[b].request.parts);
    KeyIdentifiesItsParts(w.runs[a].request.parts, w.runs[b].request.parts);
  }

  // ---------------------------------------------------------------------------------------------
  // The key never repeats when the risk decision is fresh

  ghost predicate FreshDecisions(w: World) {
    forall a, b :: a in w.runs && b in w.runs && a != b ==>
      w.runs[a].request.parts.riskDecisionId != w.runs[b].request.parts.riskDecisionId
  }

  /**
   * Each run evaluates risk anew and is given a new decision identifier, which is part of the key. With such
   * identifiers no run ever finds the order of another: nothing is reused, and no insert collides.
   */
  lemma FreshDecisionsReuseNothing(steps: seq<Step>, id: RunId)
    requires id in RunSteps(steps).runs && FreshDecisions(RunSteps(steps))
    requires forall run :: run in RunSteps(steps).runs ==> PlainIds(RunSteps(steps).runs[run].request.parts)
    ensures var phase := RunSteps(steps).runs[id].phase;
            !phase.Collided? && !(phase.Finished? && phase.outcome.OrderReused?)
  {
    hide BuildIdempotencyKey, Accepted, OrderOk, RunSteps, BookedOk, BookedOnce, Booked;
    RunKeepsInv(steps);
    var w := RunSteps(steps);
    assert RunOk(w, id);
    var key := Key(w.runs[id]);
    if key in w.orders {
      CreatorIsPast(w, key);
      var creator := w.orders[key].correlationId;
      AcceptedStrategyIsColonFree(w.runs[id].request.parts);
      AcceptedStrategyIsColonFree(w.runs[creator].request.parts);
      KeyIdentifiesItsParts(w.runs[id].request.parts, w.runs[creator].request.parts);
    }
  }

  function NewOrder(w: World, request: Request, at: Time): Order
    requires request.close > 0.0
  {
    FilledOrder(w.nextOrder, OrderSymbol(request.parts), Intent(request.notional / request.close, request.close), at)
  }

  /** An approved run that nothing disturbs, and whose key is free, stores one order and books it. */
  lemma RunAlone(w: World, id: RunId, at: Time)
    requires id in w.runs && w.runs[id].phase.Approved? && Key(w.runs[id]) !in w.orders
    requires w.runs[id].request.close > 0.0 && w.runs[id].request.notional > 0.0
    ensures var request := w.runs[id].request;
            var order := NewOrder(w, request, at);
            Apply(Apply(Apply(w, LookUp(id)), Create(id, at)), Book(id, at))
            == World(w.runs[id := Run(request, Finished(OrderCreated(order.id)))],
                     w.orders[Key(w.runs[id]) := StoredOrder(id, request.parts.riskDecisionId, order)],
                     w.nextOrder + 1, w.ops + [PaperBookRuns.OrderFilled(order, at)])
  {
    hide BuildIdempotencyKey, FilledOrder, Accepted, Approves;
    KeyIsNotBlank(w.runs[id]);
    QuotientIsExact(w.runs[id].request.notional, w.runs[id].request.close);
  }

  /** Two runs on one signal, both approved before either stores its order. */
  function Race(first: Request, second: Request, at: Time, limits: Limits): seq<Step> {
    [Begin(0, first, at, limits), Begin(1, second, at, limits),
     LookUp(0), Create(0, at), Book(0, at), LookUp(1), Create(1, at), Book(1, at)]
  }

  /**
   * The reuse of orders is promised, and kept, for one key. It does not keep one signal from being bought twice: two
   * runs that race on it have two risk decisions, so two keys, and both buy, under any limits.
   */
  lemma RacingRunsBuyTwice(first: Request, riskDecisionId: string, limits: Limits)
    requires first.close > 0.0 && first.notional > 0.0
    requires Accepted(first.parts) && PlainIds(first.parts)
    requires ColonFree(riskDecisionId) && riskDecisionId != first.parts.riskDecisionId
    ensures var second := first.(parts := first.parts.(riskDecisionId := riskDecisionId));
            var w := RunSteps(Race(first, second, first.signalCreatedAt, limits));
            && |w.orders| == 2
            && |w.ops| == 2 && w.ops[0].OrderFilled? && w.ops[1].OrderFilled?
            && PaperBookRuns.RunCash(EMPTY_TABLES, w.ops) == -2.0 * first.notional
  {
    var second := first.(parts := first.parts.(riskDecisionId := riskDecisionId));
    var at := first.signalCreatedAt;
    var steps := Race(first, second, at, limits);
    AcceptedStrategyIsColonFree(first.parts);
    FreshRiskDecisionsNeverCollide(first.parts, second.parts);
    UnrollEight(steps);
    BothBegin(first, second, at, limits);
    hide BuildIdempotencyKey, Apply, RunSteps, Accepted;
    var begun := RunSteps(steps[..2]);
    RunAlone(begun, 0, at);
    var between := RunSteps(steps[..5]);
    RunAlone(between, 1, at);
    SpendsNotional(first, NewOrder(begun, first, at), at);
    SpendsNotional(second, NewOrder(between, second, at), at);
    TwoOrdersSpend(RunSteps(steps).ops, first.notional);
  }

  lemma BothBegin(first: Request, second: Request, at: Time, limits: Limits)
    requires Accepted(first.parts) && Accepted(second.parts)
    requires first.signalCreatedAt == second.signalCreatedAt == at
    ensures Apply(Apply(START, Begin(0, first, at, limits)), Begin(1, second, at, limits))
            == START.(runs := map[0 := Run(first, Approved), 1 := Run(second, Approved)])
  {
    hide Accepted;
    assert BookFills([]) == [];
  }

  lemma UnrollEight(steps: seq<Step>)
    requires |steps| == 8
    ensures RunSteps(steps[..2]) == Apply(Apply(START, steps[0]), steps[1])
    ensures RunSteps(steps[..5]) == Apply(Apply(Apply(RunSteps(steps[..2]), steps[2]), steps[3]), steps[4])
    ensures RunSteps(steps) == Apply(Apply(Apply(RunSteps(steps[..5]), steps[5]), steps[6]), steps[7])
  {
    hide Apply;
    assert steps[..8] == steps;
    UnrollOne(steps, 0);
    UnrollOne(steps, 1);
    UnrollOne(steps, 2);
    UnrollOne(steps, 3);
    UnrollOne(steps, 4);
    UnrollOne(steps, 5);
    UnrollOne(steps, 6);
    UnrollOne(steps, 7);
  }

  lemma UnrollOne(steps: seq<Step>, n: nat)
    requires n < |steps|
    ensures RunSteps(steps[..n + 1]) == Apply(RunSteps(steps[..n]), steps[n])
  {
    assert steps[..n + 1][..n] == steps[..n];
  }

  lemma SpendsNotional(request: Request, order: Order, at: Time)
    requires request.close > 0.0 && request.notional > 0.0
    requires exists w: World :: order == NewOrder(w, request, at)
    ensures forall t :: PaperBookRuns.OpCash(t, PaperBookRuns.OrderFilled(order, at)) == -request.notional
  {
    QuotientIsExact(request.notional, request.close);
  }

  lemma TwoOrdersSpend(ops: seq<PaperBookRuns.Op>, notional: real)
    requires |ops| == 2
    requires forall t :: PaperBookRuns.OpCash(t, ops[0]) == -notional && PaperBookRuns.OpCash(t, ops[1]) == -notional
    ensures PaperBookRuns.RunCash(EMPTY_TABLES, ops) == -2.0 * notional
  {
    hide PaperBookRuns.OpCash;
    assert ops[..1][..0] == [] && ops[..1][0] == ops[0];
    assert PaperBookRuns.RunCash(EMPTY_TABLES, ops[..1]) == -notional;
  }

  // ---------------------------------------------------------------------------------------------
  // The fills table

  datatype Bought = Bought(orderId: Id, price: real, quantity: real)

  /** The fills of placed orders, in table order. */
  function BoughtInFills(fills: seq<Fill>): seq<Bought> {
    if fills == [] then []
    else
      var last := fills[|fills| - 1];
      BoughtInFills(fills[..|fills| - 1])
      + if last.orderId.Placed? then [Bought(last.orderId.id, last.price, last.quantity)] else []
  }

  /** The bookings, in the order they were made. */
  function BoughtInOps(ops: seq<PaperBookRuns.Op>): seq<Bought> {
    if ops == [] then []
    else
      var last := ops[|ops| - 1];
      BoughtInOps(ops[..|ops| - 1])
      + if last.OrderFilled? then [Bought(last.order.id, FillPrice(last.order), last.order.filledQty)] else []
  }

  ghost predicate AllFilled(ops: seq<PaperBookRuns.Op>) {
    forall k :: 0 <= k < |ops| && ops[k].OrderFilled? ==>
      ops[k].order.executionState == "PAPER_FILLED" && ops[k].order.filledQty > 0.0
  }

  /**
   * In every run the fills table holds one row for each booking, in booking order, with the price and quantity that
   * was bought: no fill is lost, overwritten or stored twice.
   */
  lemma FillsAreExactlyTheBookings(steps: seq<Step>)
    ensures var w := RunSteps(steps);
            BoughtInFills(PaperBookRuns.RunOps(EMPTY_TABLES, w.ops).fills) == BoughtInOps(w.ops)
  {
    hide BuildIdempotencyKey, OrderOk, RunOk, BookedOk, RunSteps, Booked, BoughtInFills, BoughtInOps;
    RunKeepsInv(steps);
    var w := RunSteps(steps);
    forall k | 0 <= k < |w.ops| && w.ops[k].OrderFilled?
      ensures w.ops[k].order.executionState == "PAPER_FILLED" && w.ops[k].order.filledQty > 0.0
    {
      var id := BookedByRun(w, k);
    }
    DistinctOrdersFillOnce(w.ops);
  }

  lemma {:induction false} DistinctOrdersFillOnce(ops: seq<PaperBookRuns.Op>)
    requires BookedOnce(ops) && AllFilled(ops)
    ensures BoughtInFills(PaperBookRuns.RunOps(EMPTY_TABLES, ops).fills) == BoughtInOps(ops)
    decreases |ops|
  {
    hide AfterOrder, AfterClose, Written, FindFill, BoughtInFills, PaperBookRuns.Inv;
    NothingBought();
    if ops != [] {
      var before, last := ops[..|ops| - 1], ops[|ops| - 1];
      DistinctOrdersFillOnce(before);
      PaperBookRuns.RunKeepsInv(EMPTY_TABLES, before);
      var t := PaperBookRuns.RunOps(EMPTY_TABLES, before);
      if last.OrderFilled? {
        NotBoughtYet(before, last.order.id);
        NoFillYet(t.fills, last.order.id);
        OrderAddsItsFill(t, last.order, last.now);
      } else if last.CloseRequested? {
        CloseAddsNoPurchase(t, last.request, last.ticks, last.staleThreshold, last.now);
      }
    }
  }

  lemma NothingBought()
    ensures BoughtInFills([]) == []
  {
  }

  predicate HasBought(bought: seq<Bought>, id: Id) {
    exists k :: 0 <= k < |bought| && bought[k].orderId == id
  }

  lemma {:induction false} NotBoughtYet(ops: seq<PaperBookRuns.Op>, id: Id)
    requires forall k :: 0 <= k < |ops| && ops[k].OrderFilled? ==> ops[k].order.id != id
    ensures !HasBought(BoughtInOps(ops), id)
    decreases |ops|
  {
    if ops != [] {
      NotBoughtYet(ops[..|ops| - 1], id);
    }
  }

  lemma {:induction false} FillIsBought(fills: seq<Fill>, j: nat, id: Id)
    requires j < |fills| && fills[j].orderId == Placed(id)
    ensures HasBought(BoughtInFills(fills), id)
    decreases |fills|
  {
    var k := |fills| - 1;
    var earlier, all := BoughtInFills(fills[..k]), BoughtInFills(fills);
    if j == k {
      assert all[|earlier|].orderId == id;
    } else {
      FillIsBought(fills[..k], j, id);
      var i :| 0 <= i < |earlier| && earlier[i].orderId == id;
      assert all[i] == earlier[i];
    }
  }

  lemma NoFillYet(fills: seq<Fill>, id: Id)
    requires !HasBought(BoughtInFills(fills), id)
    ensures FindFill(fills, Placed(id)).None?
  {
    if FindFill(fills, Placed(id)).Some? {
      FillIsBought(fills, FindFill(fills, Placed(id)).value, id);
    }
  }

  lemma OrderAddsItsFill(t: Tables, order: Order, now: Time)
    requires PaperBookRuns.Inv(t) && order.executionState == "PAPER_FILLED" && order.filledQty > 0.0
    requires FindFill(t.fills, Placed(order.id)).None?
    ensures BoughtInFills(AfterOrder(t, order, now).fills)
            == BoughtInFills(t.fills) + [Bought(order.id, FillPrice(order), order.filledQty)]
  {
    hide OpenPositionFromBuy, FindFill, BoughtInFills;
    var t1 := EnsureAccount(t, now);
    var i := FindOpen(t1.positions, order.symbol);
    var existing := if i.Some? then Some(t1.positions[i.value]) else None;
    var fill := OrderFill(order, if i.Some? then Some(t1.positions[i.value].id) else None, t1.nextId, now);
    var bought := OpenPositionFromBuy(t1.account.value, existing, fill, t1.nextId + 1);
    BuySucceeds(t1.account.value, existing, fill, t1.nextId + 1);
    var stored := fill.(positionId := Some(bought.value.position.id));
    assert AfterOrder(t, order, now).fills == t.fills + [stored];
    LastFillBought(t.fills, stored);
  }

  lemma BuySucceeds(account: Account, existing: Option<Position>, fill: Fill, freshId: Id)
    requires fill.quantity > 0.0 && (existing.Some? ==> existing.value.quantity > 0.0)
    ensures OpenPositionFromBuy(account, existing, fill, freshId).Success?
  {
  }

  lemma LastFillBought(fills: seq<Fill>, fill: Fill)
    ensures BoughtInFills(fills + [fill])
            == BoughtInFills(fills)
               + if fill.orderId.Placed? then [Bought(fill.orderId.id, fill.price, fill.quantity)] else []
  {
    assert (fills + [fill])[..|fills|] == fills;
  }

  lemma CloseAddsNoPurchase(t: Tables, request: CloseRequest, ticks: map<string, MarkTick>, staleThreshold: nat,
                            now: Time)
    ensures BoughtInFills(AfterClose(t, request, ticks, staleThreshold, now).fills) == BoughtInFills(t.fills)
  {
    hide CloseOutcome, BoughtInFills;
    var next := AfterClose(t, request, ticks, staleThreshold, now);
    if next.fills != t.fills {
      var fill := next.fills[|next.fills| - 1];
      assert next.fills == t.fills + [fill] && fill.orderId.Closing?;
      LastFillBought(t.fills, fill);
    }
  }
}
