/**
 * The order half of the paper pipeline, from an approved risk decision to a booked fill. Any number of runs race
 * through its steps, runs may die between two steps, and operators may close positions or have the book marked at any time.
 * Times are microseconds.
 */
module OrderPipeline {
  import opened Wrappers
  import opened Accounting
  import opened PaperBook
  import opened IdempotencyKeys
  import PaperBookRuns
  import Text
  import Market

  type RunId = nat

  /**
   * What a run brings along: the parts of its key, with strategy and symbol as they were requested, the approved
   * notional, the latest close, and when its signal was stored.
   */
  datatype Request = Request(parts: KeyParts, notional: real, close: real, signalCreatedAt: Time)

  /** The two limits of the risk configuration that look at times. */
  datatype Limits = Limits(cooldownSeconds: nat, maxSignalAgeMs: nat) {
    function Cooldown(): nat { cooldownSeconds * 1_000_000 }
    function MaxAge(): nat { maxSignalAgeMs * 1_000 }
  }

  datatype Intent = Intent(quantity: real, price: real)

  datatype StoredOrder = StoredOrder(correlationId: RunId, riskDecisionId: string, order: Order)

  datatype PipelineError = InvalidRequest | CloseNotPositive | InvalidQuantity | DuplicateKeyWithoutOrder

  datatype Outcome = OrderCreated(orderId: Id) | OrderReused(orderId: Id) | Rejected(error: PipelineError)

  datatype Phase =
    | Approved
    | Prepared(intent: Intent)
    | Collided
    | Unbooked(stored: StoredOrder)
    | Finished(outcome: Outcome)
    | Died

  datatype Run = Run(request: Request, phase: Phase)

  /** `ops` is everything that was done to the paper book, in order. */
  datatype World = World(
    runs: map<RunId, Run>,
    orders: map<string, StoredOrder>,
    nextOrder: Id,
    ops: seq<PaperBookRuns.Op>)

  const START := World(map[], map[], 0, [])

  datatype Step =
    | Begin(run: RunId, request: Request, evaluatedAt: Time, limits: Limits)
    | LookUp(run: RunId)
    | Create(run: RunId, at: Time)
    | Reload(run: RunId)
    | Book(run: RunId, now: Time)
    | Die(run: RunId)
    | ClosePosition(close: CloseRequest, ticks: map<string, MarkTick>, staleThreshold: nat, now: Time)
    | MarkBook(prices: seq<MarkPriceInput>, markedAt: Time)

  function Key(run: Run): string { BuildIdempotencyKey(run.request.parts) }

  /** Runs start for known strategies and non-empty symbols only. */
  predicate Accepted(parts: KeyParts) {
    Market.KnownStrategy(parts.strategyId) && Market.NewSymbol(parts.symbol).Some?
  }

  /**
   * The last trade is long enough ago: so is then every earlier one. Closing a position stores a filled order too,
   * whose date is that of its fill.
   */
  predicate CooledDown(orders: map<string, StoredOrder>, fills: seq<Fill>, at: Time, limits: Limits) {
    && (forall key :: key in orders && orders[key].order.filledAt.Some? ==>
          at - orders[key].order.filledAt.value >= limits.Cooldown())
    && (forall k :: 0 <= k < |fills| && fills[k].orderId.Closing? ==> at - fills[k].filledAt >= limits.Cooldown())
  }

  /** The cooldown and signal-age rules, on the orders as they are when risk is evaluated. */
  predicate Approves(orders: map<string, StoredOrder>, fills: seq<Fill>, signalCreatedAt: Time, at: Time, limits: Limits) {
    CooledDown(orders, fills, at, limits) && at - signalCreatedAt <= limits.MaxAge()
  }

  function BookFills(ops: seq<PaperBookRuns.Op>): seq<Fill> { PaperBookRuns.RunOps(EMPTY_TABLES, ops).fills }

  /** The order names the symbol in its normal form, the key as it was requested. */
  function OrderSymbol(parts: KeyParts): string { Market.NewSymbol(parts.symbol).GetOr("") }

  function BuildOrderIntent(notional: real, close: real): Result<Intent, PipelineError> {
    if close <= 0.0 then Failure(CloseNotPositive) else Success(Intent(notional / close, close))
  }

  /** The row an accepted intent becomes: filled at once, at its limit price. */
  function FilledOrder(id: Id, symbol: string, intent: Intent, at: Time): Order {
    Order(id, "PAPER_FILLED", symbol, intent.quantity, intent.quantity, Some(intent.price), Some(intent.price),
          Some(intent.price), Some(at))
  }

  /** What the first look at the orders decides for a run. */
  function AfterLookUp(run: Run, orders: map<string, StoredOrder>): Phase {
    if Key(run) in orders then Finished(OrderReused(orders[Key(run)].order.id))
    else
      match BuildOrderIntent(run.request.notional, run.request.close)
      case Failure(e) => Finished(Rejected(e))
      case Success(intent) => Prepared(intent)
  }

  /** The intent checks come before the insert, and the unique index on the key decides between racing inserts. */
  function AfterCreate(id: RunId, run: Run, orders: map<string, StoredOrder>, nextOrder: Id, at: Time): Phase
    requires run.phase.Prepared?
  {
    if Text.Trim(Key(run)) == "" || run.phase.intent.quantity <= 0.0 || run.phase.intent.price <= 0.0 then
      Finished(Rejected(InvalidQuantity))
    else if Key(run) in orders then Collided
    else Unbooked(StoredOrder(id, run.request.parts.riskDecisionId,
                              FilledOrder(nextOrder, OrderSymbol(run.request.parts), run.phase.intent, at)))
  }

  function AfterReload(run: Run, orders: map<string, StoredOrder>): Phase {
    if Key(run) in orders then Finished(OrderReused(orders[Key(run)].order.id))
    else Finished(Rejected(DuplicateKeyWithoutOrder))
  }

  function SetPhase(w: World, id: RunId, phase: Phase): World
    requires id in w.runs
  {
    w.(runs := w.runs[id := w.runs[id].(phase := phase)])
  }

  function Apply(w: World, step: Step): World {
    match step
    case Begin(id, request, at, limits) =>
      if id in w.runs || !Accepted(request.parts) ||
         !Approves(w.orders, BookFills(w.ops), request.signalCreatedAt, at, limits) then w
      else w.(runs := w.runs[id := Run(request, Approved)])
    case LookUp(id) =>
      if id in w.runs && w.runs[id].phase.Approved? then SetPhase(w, id, AfterLookUp(w.runs[id], w.orders)) else w
    case Create(id, at) =>
      if id in w.runs && w.runs[id].phase.Prepared? then
        var phase := AfterCreate(id, w.runs[id], w.orders, w.nextOrder, at);
        var next := SetPhase(w, id, phase);
        if phase.Unbooked?
        then next.(orders := w.orders[Key(w.runs[id]) := phase.stored], nextOrder := w.nextOrder + 1)
        else next
      else w
    case Reload(id) =>
      if id in w.runs && w.runs[id].phase.Collided? then SetPhase(w, id, AfterReload(w.runs[id], w.orders)) else w
    case Book(id, now) =>
      if id in w.runs && w.runs[id].phase.Unbooked? then
        var order := w.runs[id].phase.stored.order;
        SetPhase(w, id, Finished(OrderCreated(order.id))).(ops := w.ops + [PaperBookRuns.OrderFilled(order, now)])
      else w
    case Die(id) =>
      if id in w.runs && !w.runs[id].phase.Finished? then SetPhase(w, id, Died) else w
    case ClosePosition(close, ticks, staleThreshold, now) =>
      w.(ops := w.ops + [PaperBookRuns.CloseRequested(close, ticks, staleThreshold, now)])
    case MarkBook(prices, at) => w.(ops := w.ops + [PaperBookRuns.Marked(prices, at)])
  }

  function RunSteps(steps: seq<Step>): World {
    if steps == [] then START else Apply(RunSteps(steps[..|steps| - 1]), steps[|steps| - 1])
  }

  // ---------------------------------------------------------------------------------------------
  // What every interleaving keeps

  /** An order row belongs to the run that created it, was filled whole at that run's price, and cost its notional. */
  ghost predicate OrderOk(w: World, key: string)
    requires key in w.orders
  {
    var stored := w.orders[key];
    && stored.order.id < w.nextOrder
    && stored.correlationId in w.runs
    && var run := w.runs[stored.correlationId];
       && Key(run) == key
       && (run.phase.Unbooked? || run.phase.Died? || run.phase == Finished(OrderCreated(stored.order.id)))
       && stored.riskDecisionId == run.request.parts.riskDecisionId
       && stored.order.symbol == OrderSymbol(run.request.parts)
       && stored.order.executionState == "PAPER_FILLED"
       && stored.order.filledQty > 0.0
       && stored.order.filledPrice == Some(run.request.close)
       && stored.order.quantity == stored.order.filledQty
       && stored.order.limitPrice == stored.order.filledPrice && stored.order.avgFillPrice == stored.order.filledPrice
       && stored.order.filledAt.Some?
       && run.request.close * stored.order.filledQty == run.request.notional
  }

  ghost predicate RunOk(w: World, id: RunId)
    requires id in w.runs
  {
    var run := w.runs[id];
    match run.phase
    case Approved => true
    case Prepared(intent) =>
      intent.price == run.request.close > 0.0 && run.request.close * intent.quantity == run.request.notional
    case Collided => Key(run) in w.orders
    case Unbooked(stored) => Key(run) in w.orders && w.orders[Key(run)] == stored && stored.correlationId == id
    case Finished(OrderCreated(order)) =>
      Key(run) in w.orders && w.orders[Key(run)].order.id == order && w.orders[Key(run)].correlationId == id
    case Finished(OrderReused(order)) =>
      Key(run) in w.orders && w.orders[Key(run)].order.id == order && w.orders[Key(run)].correlationId != id
    case Finished(Rejected(error)) =>
      error == (if run.request.close <= 0.0 then CloseNotPositive else InvalidQuantity)
      && (run.request.close > 0.0 ==> run.request.notional <= 0.0)
    case Died => true
  }

  /** A booked order is in the table, and the run that created it has finished. */
  ghost predicate BookedOk(w: World, k: nat)
    requires k < |w.ops| && w.ops[k].OrderFilled?
  {
    exists key :: key in w.orders && w.orders[key].order == w.ops[k].order
                  && w.orders[key].correlationId in w.runs
                  && w.runs[w.orders[key].correlationId].phase == Finished(OrderCreated(w.ops[k].order.id))
  }

  ghost predicate Inv(w: World) {
    && (forall key :: key in w.orders ==> OrderOk(w, key))
    && (forall a, b :: a in w.orders && b in w.orders && w.orders[a].order.id == w.orders[b].order.id ==> a == b)
    && (forall id :: id in w.runs ==> RunOk(w, id) && Accepted(w.runs[id].request.parts))
    && (forall k :: 0 <= k < |w.ops| && w.ops[k].OrderFilled? ==> BookedOk(w, k))
    && BookedOnce(w.ops)
    && (forall id :: id in w.runs && w.runs[id].phase.Finished? && w.runs[id].phase.outcome.OrderCreated? ==>
          Booked(w.ops, w.runs[id].phase.outcome.orderId))
  }

  ghost predicate Booked(ops: seq<PaperBookRuns.Op>, id: Id) {
    exists k :: 0 <= k < |ops| && ops[k].OrderFilled? && ops[k].order.id == id
  }

  /** No order is booked twice. */
  ghost predicate BookedOnce(ops: seq<PaperBookRuns.Op>) {
    forall j, k :: 0 <= j < k < |ops| && ops[j].OrderFilled? && ops[k].OrderFilled? ==>
      ops[j].order.id != ops[k].order.id
  }

  lemma KeyIsNotBlank(run: Run)
    ensures Text.Trim(Key(run)) != ""
  {
    var p := run.request.parts;
    assert Key(run)[|p.strategyId|] == ':';
    Text.TrimKeepsText(Key(run), |p.strategyId|);
  }

  lemma QuotientIsExact(notional: real, close: real)
    requires close > 0.0
    ensures close * (notional / close) == notional
    ensures notional / close <= 0.0 <==> notional <= 0.0
  {
    var q := notional / close;
    assert close * q == notional;
    if q > 0.0 { assert close * q > 0.0; }
    if q < 0.0 { assert close * q < 0.0; }
  }

  /** Orders are never changed, requests never, and finished runs never. */
  ghost predicate Extends(w: World, next: World) {
    && (forall key :: key in w.orders ==> key in next.orders && next.orders[key] == w.orders[key])
    && w.nextOrder <= next.nextOrder
    && (forall id :: id in w.runs ==>
          && id in next.runs && next.runs[id].request == w.runs[id].request
          && (w.runs[id].phase.Finished? ==> next.runs[id] == w.runs[id]))
  }

  lemma OrderStaysOk(w: World, next: World, key: string)
    requires Extends(w, next) && key in w.orders && OrderOk(w, key)
    requires var id := w.orders[key].correlationId;
             next.runs[id].phase == w.runs[id].phase || next.runs[id].phase.Died?
             || next.runs[id].phase == Finished(OrderCreated(w.orders[key].order.id))
    ensures OrderOk(next, key)
  {
    hide BuildIdempotencyKey, Accepted;
  }

  lemma RunStaysOk(w: World, next: World, id: RunId)
    requires Extends(w, next) && id in w.runs && next.runs[id] == w.runs[id] && RunOk(w, id)
    ensures RunOk(next, id)
  {
    hide BuildIdempotencyKey, Accepted;
  }

  lemma BookingStaysOk(w: World, next: World, k: nat)
    requires Extends(w, next) && k < |w.ops| <= |next.ops| && next.ops[k] == w.ops[k]
    requires w.ops[k].OrderFilled? && BookedOk(w, k)
    ensures BookedOk(next, k)
  {
    var key :| key in w.orders && w.orders[key].order == w.ops[k].order
               && w.orders[key].correlationId in w.runs
               && w.runs[w.orders[key].correlationId].phase == Finished(OrderCreated(w.ops[k].order.id));
    assert next.orders[key] == w.orders[key];
  }

  /** The run that created an order is past its create step. */
  lemma CreatorIsPast(w: World, key: string)
    requires Inv(w) && key in w.orders
    ensures var id := w.orders[key].correlationId;
            && id in w.runs && Key(w.runs[id]) == key
            && (w.runs[id].phase.Unbooked? || w.runs[id].phase.Died?
                || w.runs[id].phase == Finished(OrderCreated(w.orders[key].order.id)))
  {
    hide BuildIdempotencyKey, Accepted;
    assert OrderOk(w, key);
  }

  /** A step of one run that leaves orders and book alone keeps the invariant, if the run itself stays in order. */
  lemma PhaseStepKeepsInv(w: World, id: RunId, phase: Phase)
    requires Inv(w) && id in w.runs && RunOk(SetPhase(w, id, phase), id)
    requires phase.Died? || !w.runs[id].phase.Unbooked?
    requires !w.runs[id].phase.Finished? && !w.runs[id].phase.Died?
    requires phase.Finished? ==> !phase.outcome.OrderCreated?
    ensures Inv(SetPhase(w, id, phase))
  {
    hide RunOk, BookedOk, OrderOk, BuildIdempotencyKey, Accepted, Booked, BookedOnce;
    var next := SetPhase(w, id, phase);
    forall key | key in next.orders
      ensures OrderOk(next, key)
    {
      CreatorIsPast(w, key);
      OrderStaysOk(w, next, key);
    }
    forall other | other in next.runs
      ensures RunOk(next, other)
    {
      if other != id {
        RunStaysOk(w, next, other);
      }
    }
    forall k | 0 <= k < |next.ops| && next.ops[k].OrderFilled?
      ensures BookedOk(next, k)
    {
      BookingStaysOk(w, next, k);
    }
  }

  lemma BeginKeepsInv(w: World, id: RunId, request: Request)
    requires Inv(w) && id !in w.runs && Accepted(request.parts)
    ensures Inv(w.(runs := w.runs[id := Run(request, Approved)]))
  {
    hide BookedOk, OrderOk, BuildIdempotencyKey, Accepted, Booked, BookedOnce;
    var next := w.(runs := w.runs[id := Run(request, Approved)]);
    assert RunOk(next, id);
    hide RunOk;
    forall key | key in next.orders
      ensures OrderOk(next, key)
    {
      CreatorIsPast(w, key);
      OrderStaysOk(w, next, key);
    }
    forall other | other in next.runs
      ensures RunOk(next, other)
    {
      if other != id {
        RunStaysOk(w, next, other);
      }
    }
    forall k | 0 <= k < |next.ops| && next.ops[k].OrderFilled?
      ensures BookedOk(next, k)
    {
      BookingStaysOk(w, next, k);
    }
  }

  lemma LookUpKeepsInv(w: World, id: RunId)
    requires Inv(w) && id in w.runs && w.runs[id].phase.Approved?
    ensures Inv(SetPhase(w, id, AfterLookUp(w.runs[id], w.orders)))
  {
    hide BookedOk, OrderOk, BuildIdempotencyKey, Accepted, Booked, BookedOnce;
    var run := w.runs[id];
    if Key(run) in w.orders {
      CreatorIsPast(w, Key(run));
    } else if run.request.close > 0.0 {
      QuotientIsExact(run.request.notional, run.request.close);
    }
    PhaseStepKeepsInv(w, id, AfterLookUp(run, w.orders));
  }

  lemma ReloadKeepsInv(w: World, id: RunId)
    requires Inv(w) && id in w.runs && w.runs[id].phase.Collided?
    ensures Inv(SetPhase(w, id, AfterReload(w.runs[id], w.orders)))
  {
    hide BookedOk, OrderOk, BuildIdempotencyKey, Accepted, Booked, BookedOnce;
    assert RunOk(w, id);
    CreatorIsPast(w, Key(w.runs[id]));
    PhaseStepKeepsInv(w, id, AfterReload(w.runs[id], w.orders));
  }

  lemma RefusedCreateKeepsInv(w: World, id: RunId, at: Time)
    requires Inv(w) && id in w.runs && w.runs[id].phase.Prepared?
    requires !AfterCreate(id, w.runs[id], w.orders, w.nextOrder, at).Unbooked?
    ensures Inv(SetPhase(w, id, AfterCreate(id, w.runs[id], w.orders, w.nextOrder, at)))
  {
    hide BookedOk, OrderOk, BuildIdempotencyKey, Accepted, Booked, BookedOnce;
    var run := w.runs[id];
    assert RunOk(w, id);
    KeyIsNotBlank(run);
    if run.phase.intent.quantity <= 0.0 {
      NoQuantityNoNotional(run.request.close, run.phase.intent.quantity);
    }
    PhaseStepKeepsInv(w, id, AfterCreate(id, run, w.orders, w.nextOrder, at));
  }

  lemma NoQuantityNoNotional(close: real, quantity: real)
    requires close > 0.0 && quantity <= 0.0
    ensures close * quantity <= 0.0
  {
  }

  lemma CreateShape(w: World, id: RunId, at: Time)
    requires id in w.runs && w.runs[id].phase.Prepared?
    requires AfterCreate(id, w.runs[id], w.orders, w.nextOrder, at).Unbooked?
    ensures var run, next := w.runs[id], Apply(w, Create(id, at));
            var stored := StoredOrder(id, run.request.parts.riskDecisionId,
                                      FilledOrder(w.nextOrder, OrderSymbol(run.request.parts), run.phase.intent, at));
            && Key(run) !in w.orders && run.phase.intent.quantity > 0.0
            && next == World(w.runs[id := run.(phase := Unbooked(stored))], w.orders[Key(run) := stored],
                             w.nextOrder + 1, w.ops)
  {
    hide Key, OrderSymbol, FilledOrder, Text.Trim;
  }

  lemma RunIsOk(w: World, id: RunId)
    requires Inv(w) && id in w.runs
    ensures RunOk(w, id)
  {
    hide RunOk, OrderOk, BookedOk, Booked, BookedOnce, Accepted;
  }

  lemma CreateStoresOrder(w: World, id: RunId, at: Time)
    requires Inv(w) && id in w.runs && w.runs[id].phase.Prepared?
    requires AfterCreate(id, w.runs[id], w.orders, w.nextOrder, at).Unbooked?
    ensures var next := Apply(w, Create(id, at));
            var key := Key(w.runs[id]);
            && Extends(w, next) && next.ops == w.ops
            && key !in w.orders && key in next.orders
            && next.orders == w.orders[key := next.orders[key]] && next.orders[key].order.id == w.nextOrder
            && next.orders[key].order.filledAt == Some(at)
            && id in next.runs && next.runs == w.runs[id := next.runs[id]] && next.runs[id].phase.Unbooked?
            && OrderOk(next, key) && RunOk(next, id)
  {
    hide Inv, Apply, AfterCreate, BuildIdempotencyKey, OrderSymbol;
    RunIsOk(w, id);
    CreateShape(w, id, at);
  }

  lemma CreateKeepsInv(w: World, id: RunId, at: Time)
    requires Inv(w) && id in w.runs && w.runs[id].phase.Prepared?
    requires AfterCreate(id, w.runs[id], w.orders, w.nextOrder, at).Unbooked?
    ensures Inv(Apply(w, Create(id, at)))
  {
    hide BookedOk, Key, Accepted, Booked, BookedOnce, Apply, AfterCreate, OrderOk, RunOk;
    var run, next := w.runs[id], Apply(w, Create(id, at));
    CreateStoresOrder(w, id, at);
    forall key | key in next.orders
      ensures OrderOk(next, key)
      ensures key != Key(run) ==> next.orders[key].order.id < w.nextOrder
    {
      if key != Key(run) {
        CreatorIsPast(w, key);
        OrderIdsAreOld(w, key);
        OrderStaysOk(w, next, key);
      }
    }
    forall other | other in next.runs
      ensures RunOk(next, other)
    {
      if other != id {
        RunStaysOk(w, next, other);
      }
    }
    forall k | 0 <= k < |next.ops| && next.ops[k].OrderFilled?
      ensures BookedOk(next, k)
    {
      BookingStaysOk(w, next, k);
    }
  }

  lemma OrderIdsAreOld(w: World, key: string)
    requires Inv(w)
    ensures key in w.orders ==> w.orders[key].order.id < w.nextOrder
  {
    hide BookedOk, RunOk, BuildIdempotencyKey, Accepted, Booked, BookedOnce;
    assert key in w.orders ==> OrderOk(w, key);
  }

  /** An order waiting to be booked has not been booked. */
  lemma UnbookedIsNotBooked(w: World, id: RunId)
    requires Inv(w) && id in w.runs && w.runs[id].phase.Unbooked?
    ensures var stored := w.runs[id].phase.stored;
            && Key(w.runs[id]) in w.orders && w.orders[Key(w.runs[id])] == stored && stored.correlationId == id
            && !Booked(w.ops, stored.order.id)
  {
    hide BuildIdempotencyKey, Accepted, OrderOk, BookedOnce;
    var stored := w.runs[id].phase.stored;
    assert RunOk(w, id);
  }

  lemma BookKeepsInv(w: World, id: RunId, now: Time)
    requires Inv(w) && id in w.runs && w.runs[id].phase.Unbooked?
    ensures Inv(Apply(w, Book(id, now)))
  {
    hide BuildIdempotencyKey, Accepted, OrderOk, BookedOk;
    var run, next := w.runs[id], Apply(w, Book(id, now));
    var stored := run.phase.stored;
    UnbookedIsNotBooked(w, id);
    assert RunOk(next, id);
    hide RunOk;
    forall key | key in next.orders
      ensures OrderOk(next, key)
    {
      CreatorIsPast(w, key);
      OrderStaysOk(w, next, key);
    }
    forall other | other in next.runs
      ensures RunOk(next, other)
    {
      if other != id {
        RunStaysOk(w, next, other);
      }
    }
    forall k | 0 <= k < |next.ops| && next.ops[k].OrderFilled?
      ensures BookedOk(next, k)
    {
      if k < |w.ops| {
        BookingStaysOk(w, next, k);
      } else {
        BookingIsOk(next, k, Key(run));
      }
    }
    BookingExtends(w.ops, next.ops[|w.ops|]);
  }

  lemma BookingIsOk(w: World, k: nat, key: string)
    requires k < |w.ops| && w.ops[k].OrderFilled? && key in w.orders && w.orders[key].order == w.ops[k].order
    requires w.orders[key].correlationId in w.runs
    requires w.runs[w.orders[key].correlationId].phase == Finished(OrderCreated(w.ops[k].order.id))
    ensures BookedOk(w, k)
  {
  }

  lemma BookingExtends(ops: seq<PaperBookRuns.Op>, op: PaperBookRuns.Op)
    requires BookedOnce(ops) && (op.OrderFilled? ==> !Booked(ops, op.order.id))
    ensures BookedOnce(ops + [op])
    ensures forall id :: Booked(ops + [op], id) <==> Booked(ops, id) || (op.OrderFilled? && op.order.id == id)
  {
    forall id
      ensures Booked(ops + [op], id) <==> Booked(ops, id) || (op.OrderFilled? && op.order.id == id)
    {
      if Booked(ops, id) {
        var k :| 0 <= k < |ops| && ops[k].OrderFilled? && ops[k].order.id == id;
        assert (ops + [op])[k] == ops[k];
      }
      if op.OrderFilled? && op.order.id == id {
        assert (ops + [op])[|ops|] == op;
      }
    }
  }

  lemma BookOpKeepsInv(w: World, op: PaperBookRuns.Op)
    requires Inv(w) && !op.OrderFilled?
    ensures Inv(w.(ops := w.ops + [op]))
  {
    hide BuildIdempotencyKey, Accepted, OrderOk, BookedOk, RunOk, BookedOnce, Booked;
    var next := w.(ops := w.ops + [op]);
    forall key | key in next.orders
      ensures OrderOk(next, key)
    {
      CreatorIsPast(w, key);
      OrderStaysOk(w, next, key);
    }
    forall id | id in next.runs
      ensures RunOk(next, id)
    {
      RunStaysOk(w, next, id);
    }
    forall k | 0 <= k < |next.ops| && next.ops[k].OrderFilled?
      ensures BookedOk(next, k)
    {
      BookingStaysOk(w, next, k);
    }
    BookingExtends(w.ops, next.ops[|w.ops|]);
  }

  lemma DieKeepsInv(w: World, id: RunId)
    requires Inv(w)
    ensures Inv(Apply(w, Die(id)))
  {
    hide BuildIdempotencyKey, Accepted, OrderOk, BookedOk, BookedOnce, Booked;
    if id in w.runs && !w.runs[id].phase.Finished? {
      if w.runs[id].phase.Died? {
        assert w.runs[id := w.runs[id]] == w.runs;
        assert Apply(w, Die(id)) == w;
      } else {
        PhaseStepKeepsInv(w, id, Died);
      }
    }
  }

  lemma StepKeepsInv(w: World, step: Step)
    requires Inv(w)
    ensures Inv(Apply(w, step))
  {
    hide Inv, AfterLookUp, AfterReload, BuildIdempotencyKey, Accepted, Approves;
    match step
    case Begin(id, request, at, limits) =>
      if id !in w.runs && Accepted(request.parts) {
        BeginKeepsInv(w, id, request);
      }
    case LookUp(id) =>
      if id in w.runs && w.runs[id].phase.Approved? {
        LookUpKeepsInv(w, id);
      }
    case Create(id, at) =>
      if id in w.runs && w.runs[id].phase.Prepared? {
        if AfterCreate(id, w.runs[id], w.orders, w.nextOrder, at).Unbooked? {
          CreateKeepsInv(w, id, at);
        } else {
          RefusedCreateKeepsInv(w, id, at);
        }
      }
    case Reload(id) =>
      if id in w.runs && w.runs[id].phase.Collided? {
        ReloadKeepsInv(w, id);
      }
    case Book(id, now) =>
      if id in w.runs && w.runs[id].phase.Unbooked? {
        BookKeepsInv(w, id, now);
      }
    case Die(id) => DieKeepsInv(w, id);
    case ClosePosition(close, ticks, staleThreshold, now) =>
      BookOpKeepsInv(w, PaperBookRuns.CloseRequested(close, ticks, staleThreshold, now));
    case MarkBook(prices, at) => BookOpKeepsInv(w, PaperBookRuns.Marked(prices, at));
  }

  /** Every interleaving of runs, deaths and closes keeps the invariant. */
  lemma {:induction false} RunKeepsInv(steps: seq<Step>)
    ensures Inv(RunSteps(steps))
    decreases |steps|
  {
    hide Apply;
    if steps != [] {
      RunKeepsInv(steps[..|steps| - 1]);
      StepKeepsInv(RunSteps(steps[..|steps| - 1]), steps[|steps| - 1]);
    }
  }
}
