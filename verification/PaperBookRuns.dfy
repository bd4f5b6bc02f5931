/** What every run of filled orders, operator closes and markings keeps, from empty tables. */
module PaperBookRuns {
  import opened Wrappers
  import opened Sums
  import opened Accounting
  import opened PaperBook
  import Ledger
  import PositionLaws

  datatype Op =
    | OrderFilled(order: Order, now: Time)
    | CloseRequested(request: CloseRequest, ticks: map<string, MarkTick>, staleThreshold: nat, now: Time)
    | Marked(prices: seq<MarkPriceInput>, at: Time)

  function Apply(t: Tables, op: Op): Tables {
    match op
    case OrderFilled(order, now) => AfterOrder(t, order, now)
    case CloseRequested(request, ticks, staleThreshold, now) => AfterClose(t, request, ticks, staleThreshold, now)
    case Marked(prices, at) => AfterMark(t, prices, at)
  }

  function RunOps(t: Tables, ops: seq<Op>): Tables {
    if ops == [] then t else Apply(RunOps(t, ops[..|ops| - 1]), ops[|ops| - 1])
  }

  // ---------------------------------------------------------------------------------------------
  // The invariant

  /** Open means holding something; a closed row holds nothing, and an open one has realized nothing yet. */
  ghost predicate RowOk(p: Position) {
    && (p.status == Open <==> p.quantity > 0.0)
    && (p.status == Closed ==> p.quantity == 0.0 && p.closedAt.Some?)
    && (p.status == Open ==> p.realizedPnl == 0.0 && p.closedAt.None?)
  }

  ghost predicate OneOpenPerSymbol(positions: seq<Position>) {
    forall j, k :: 0 <= j < k < |positions| && positions[j].status == Open && positions[k].status == Open ==>
        positions[j].symbol != positions[k].symbol
  }

  ghost predicate HasClosingFill(fills: seq<Fill>, id: Id) {
    exists k :: 0 <= k < |fills| && fills[k].orderId == Closing(id) && fills[k].positionId == Some(id)
  }

  ghost predicate Inv(t: Tables) {
    && (t.account.None? ==> t.positions == [])
    && (forall k :: 0 <= k < |t.positions| ==> RowOk(t.positions[k]) && t.positions[k].id < t.nextId)
    && DistinctIds(t.positions)
    && OneOpenPerSymbol(t.positions)
    && (forall k :: 0 <= k < |t.fills| ==> t.fills[k].id < t.nextId)
    && (forall k :: 0 <= k < |t.positions| ==>
          (t.positions[k].status == Closed <==> t.positions[k].id in t.closedJournal))
    && (forall id :: id in t.closedJournal ==> id < t.nextId && HasClosingFill(t.fills, id))
    && (forall k :: 0 <= k < |t.fills| && t.fills[k].orderId.Closing? ==> t.fills[k].orderId.positionId in t.closedJournal)
  }

  /** The fields of a bought position that are not amounts. */
  lemma BuyShape(account: Account, existing: Option<Position>, fill: Fill, freshId: Id)
    ensures var r := OpenPositionFromBuy(account, existing, fill, freshId);
            && (fill.quantity <= 0.0 ==> r.Failure?)
            && (r.Success? ==>
                  && r.value.position.status == Open && r.value.position.closedAt == None
                  && r.value.position.id == (if existing.Some? then existing.value.id else fill.positionId.GetOr(freshId))
                  && r.value.position.symbol == (if existing.Some? then existing.value.symbol else fill.symbol))
  {
  }

  lemma UpsertKeepsClosingFills(fills: seq<Fill>, fill: Fill, id: Id)
    requires fill.orderId.Placed? && HasClosingFill(fills, id)
    ensures HasClosingFill(UpsertFill(fills, fill), id)
  {
    var k :| 0 <= k < |fills| && fills[k].orderId == Closing(id) && fills[k].positionId == Some(id);
    assert UpsertFill(fills, fill)[k] == fills[k];
  }

  /** What an accepted order does to the tables, seen from outside. */
  ghost predicate OrderShape(t: Tables, order: Order, now: Time, next: Tables) {
    var t1 := EnsureAccount(t, now);
    var i := FindOpen(t1.positions, order.symbol);
    var k := if i.Some? then i.value else |t1.positions|;
    && next.account.Some?
    && next.nextId == t1.nextId + 2
    && next.closedJournal == t.closedJournal
    && |next.positions| == (if i.Some? then |t.positions| else |t.positions| + 1)
    && (forall j :: 0 <= j < |t.positions| && j != k ==> next.positions[j] == t.positions[j])
    && next.positions[k].symbol == order.symbol
    && next.positions[k].status == Open
    && RowOk(next.positions[k])
    && next.positions[k].id == (if i.Some? then t.positions[k].id else t1.nextId + 1)
    && (exists fill: Fill :: fill.orderId.Placed? && fill.id == t1.nextId && fill.positionId == Some(next.positions[k].id)
                       && next.fills == UpsertFill(t.fills, fill))
  }

  lemma OrderStep(t: Tables, order: Order, now: Time)
    requires Inv(t)
    ensures var next := AfterOrder(t, order, now);
            if order.executionState == "PAPER_FILLED" && order.filledQty > 0.0 then OrderShape(t, order, now, next)
            else next.(nextId := 0, account := None) == t.(nextId := 0, account := None)
                 && next.nextId >= t.nextId && (t.account.Some? ==> next.account == t.account)
  {
    hide OpenPositionFromBuy, UpsertFill, OrderFill;
    if order.executionState == "PAPER_FILLED" {
      var t1 := EnsureAccount(t, now);
      var i := FindOpen(t1.positions, order.symbol);
      var existing := if i.Some? then Some(t1.positions[i.value]) else None;
      var fill := OrderFill(order, if i.Some? then Some(t1.positions[i.value].id) else None, t1.nextId, now);
      OrderFillFields(order, if i.Some? then Some(t1.positions[i.value].id) else None, t1.nextId, now);
      BuyShape(t1.account.value, existing, fill, t1.nextId + 1);
      if order.filledQty > 0.0 {
        Ledger.BuyEffect(t1.account.value, existing, fill, t1.nextId + 1);
        var app := OpenPositionFromBuy(t1.account.value, existing, fill, t1.nextId + 1).value;
        assert RowOk(app.position);
        var stored := fill.(positionId := Some(app.position.id));
        assert AfterOrder(t, order, now).fills == UpsertFill(t.fills, stored);
      }
    }
  }

  lemma OrderFillFields(order: Order, positionId: Option<Id>, fillId: Id, now: Time)
    ensures var f := OrderFill(order, positionId, fillId, now);
            && f.orderId == Placed(order.id) && f.id == fillId && f.positionId == positionId
            && f.symbol == order.symbol && f.quantity == order.filledQty && f.TradeCost() == 0.0
            && f.notional == FillPrice(order) * order.filledQty
  {
  }

  lemma OrderKeepsInv(t: Tables, order: Order, now: Time)
    requires Inv(t)
    ensures Inv(AfterOrder(t, order, now))
  {
    hide AfterOrder;
    OrderStep(t, order, now);
    var next := AfterOrder(t, order, now);
    if order.executionState == "PAPER_FILLED" && order.filledQty > 0.0 {
      var fill: Fill :| fill.orderId.Placed? && fill.id == EnsureAccount(t, now).nextId
                  && next.fills == UpsertFill(t.fills, fill);
      forall id | id in t.closedJournal ensures HasClosingFill(next.fills, id) {
        UpsertKeepsClosingFills(t.fills, fill, id);
      }
    }
  }

  /** What a successful first close does to the tables, seen from outside. */
  ghost predicate CloseShape(t: Tables, id: Id, exitPrice: real, now: Time, next: Tables) {
    var k := Ledger.Find(t.positions, id);
    && k.Some? && t.account.Some? && next.account.Some?
    && next.nextId == t.nextId + 1
    && next.closedJournal == t.closedJournal + {id}
    && |next.positions| == |t.positions|
    && (forall j :: 0 <= j < |t.positions| && j != k.value ==> next.positions[j] == t.positions[j])
    && var was, p := t.positions[k.value], next.positions[k.value];
    && p.id == id && p.symbol == was.symbol && p.status == Closed && p.quantity == 0.0 && p.closedAt == Some(now)
    && was.status == Open && was.quantity > 0.0
    && |next.fills| == |t.fills| + 1 && next.fills[..|t.fills|] == t.fills
    && var f := next.fills[|t.fills|];
    && f.orderId == Closing(id) && f.positionId == Some(id) && f.id == t.nextId && f.filledAt == now
    && f.quantity == was.quantity && f.price == exitPrice && f.fee == 0.0 && f.slippageCost == 0.0
  }

  lemma CloseStep(t: Tables, request: CloseRequest, ticks: map<string, MarkTick>, staleThreshold: nat, now: Time)
    ensures var next := AfterClose(t, request, ticks, staleThreshold, now);
            var outcome := CloseOutcome(t, request, ticks, staleThreshold, now);
            if outcome.Success? && !outcome.value.alreadyClosed then
              && CloseShape(EnsureAccount(t, now), request.positionId, outcome.value.exitPrice, now, next)
              && outcome.value.closedAt == Some(now) && outcome.value.positionId == request.positionId
              && outcome.value.fillId == EnsureAccount(t, now).nextId
              && outcome.value.fee == 0.0 && outcome.value.slippageCost == 0.0
              && var was := EnsureAccount(t, now).positions[Ledger.Find(EnsureAccount(t, now).positions, request.positionId).value];
                 var p := next.positions[Ledger.Find(EnsureAccount(t, now).positions, request.positionId).value];
              && outcome.value.symbol == was.symbol && outcome.value.quantity == was.quantity
              && outcome.value.entryPrice == was.entryPrice == p.entryPrice
              && p.realizedPnl == was.realizedPnl + outcome.value.realizedPnl
            else next == t || next == EnsureAccount(t, now)
  {
    var t1 := EnsureAccount(t, now);
    var i := Ledger.Find(t1.positions, request.positionId);
    if i.Some? && t1.positions[i.value].symbol in ticks {
      var p := t1.positions[i.value];
      PositionLaws.MarketCloseOutcome(t1.account.value, p, Closing(p.id), t1.nextId, ticks[p.symbol].price, 0.0, 0.0, now);
    }
  }

  lemma CloseKeepsInv(t: Tables, request: CloseRequest, ticks: map<string, MarkTick>, staleThreshold: nat, now: Time)
    requires Inv(t)
    ensures Inv(AfterClose(t, request, ticks, staleThreshold, now))
  {
    hide AfterClose, CloseOutcome;
    CloseStep(t, request, ticks, staleThreshold, now);
    var t1 := EnsureAccount(t, now);
    var next := AfterClose(t, request, ticks, staleThreshold, now);
    var outcome := CloseOutcome(t, request, ticks, staleThreshold, now);
    if outcome.Success? && !outcome.value.alreadyClosed {
      var k := Ledger.Find(t1.positions, request.positionId).value;
      assert RowOk(next.positions[k]);
      forall id | id in next.closedJournal ensures HasClosingFill(next.fills, id) {
        if id == request.positionId {
          assert next.fills[|t1.fills|].orderId == Closing(id);
        } else {
          var j :| 0 <= j < |t1.fills| && t1.fills[j].orderId == Closing(id) && t1.fills[j].positionId == Some(id);
          assert next.fills[j] == t1.fills[j];
        }
      }
      forall j | 0 <= j < |next.fills| ensures next.fills[j].id < next.nextId {
        if j < |t1.fills| {
          assert next.fills[j] == t1.fills[j];
        }
      }
    }
  }

  // ---------------------------------------------------------------------------------------------
  // Marking

  /** The open row of a position in a table. */
  function OpenIn(positions: seq<Position>, id: Id): Option<Position> {
    var k := Ledger.Find(positions, id);
    if k.Some? && positions[k.value].status == Open then Some(positions[k.value]) else None
  }

  lemma FindInNone(id: Id)
    ensures Ledger.Find([], id) == None
  {
  }

  lemma {:induction false} OpenRowFound(positions: seq<Position>, id: Id)
    requires DistinctIds(positions)
    ensures var k := Ledger.Find(OpenRows(positions), id);
            OpenIn(positions, id) == if k.Some? then Some(OpenRows(positions)[k.value]) else None
    decreases |positions|
  {
    hide Ledger.Find;
    FindInNone(id);
    if positions != [] {
      var n := |positions| - 1;
      var before, last := positions[..n], positions[n];
      OpenRowFound(before, id);
      assert positions == before + [last];
      assert Ledger.Find(before, id).Some? ==> last.id != id;
      assert OpenRows(positions) == if last.status == Open then OpenRows(before) + [last] else OpenRows(before);
      FindAppends(before, last, id);
      FindAppends(OpenRows(before), last, id);
    }
  }

  /** What marking writes in the place of a row: the marked row of that position as it was read, if it was open then. */
  lemma WrittenAt(positions: seq<Position>, read: seq<Position>, prices: seq<MarkPriceInput>, at: Time, i: nat)
    requires DistinctIds(read) && i < |positions|
    ensures Written(positions, MarkedRows(OpenRows(read), prices, at))[i]
            == match OpenIn(read, positions[i].id)
               case None => positions[i]
               case Some(p) => MarkedPosition(p, prices, at)
  {
    OpenRowFound(read, positions[i].id);
    FindById(MarkedRows(OpenRows(read), prices, at), OpenRows(read), positions[i].id);
  }

  lemma OpenInItself(positions: seq<Position>, i: nat)
    requires DistinctIds(positions) && i < |positions|
    ensures OpenIn(positions, positions[i].id) == if positions[i].status == Open then Some(positions[i]) else None
  {
  }

  /** Marking at once marks every open row and leaves the closed ones alone. */
  lemma MarkStep(t: Tables, prices: seq<MarkPriceInput>, at: Time)
    requires DistinctIds(EnsureAccount(t, at).positions)
    ensures var t1 := EnsureAccount(t, at);
            var next := AfterMark(t, prices, at);
            && next.(account := None, positions := []) == t1.(account := None, positions := [])
            && next.account == Some(WithSummary(t1.account.value,
                                                MarkedSummary(t1.account.value, OpenRows(t1.positions), prices), at))
            && |next.positions| == |t1.positions|
            && (forall i :: 0 <= i < |t1.positions| ==>
                  next.positions[i] == if t1.positions[i].status == Open then MarkedPosition(t1.positions[i], prices, at)
                                       else t1.positions[i])
  {
    hide MarkedSummary, MarkedPosition, OpenRows, WithSummary, OpenIn;
    var t1 := EnsureAccount(t, at);
    forall i | 0 <= i < |t1.positions|
      ensures AfterMark(t, prices, at).positions[i]
              == if t1.positions[i].status == Open then MarkedPosition(t1.positions[i], prices, at) else t1.positions[i]
    {
      WrittenAt(t1.positions, t1.positions, prices, at, i);
      OpenInItself(t1.positions, i);
    }
  }

  lemma MarkKeepsInv(t: Tables, prices: seq<MarkPriceInput>, at: Time)
    requires Inv(t)
    ensures Inv(AfterMark(t, prices, at))
  {
    hide AfterMark, MarkedSummary, WithSummary, OpenRows;
    MarkStep(t, prices, at);
  }

  lemma StepKeepsInv(t: Tables, op: Op)
    requires Inv(t)
    ensures Inv(Apply(t, op))
  {
    hide Inv, AfterOrder, AfterClose, AfterMark;
    match op
    case OrderFilled(order, now) => OrderKeepsInv(t, order, now);
    case CloseRequested(request, ticks, staleThreshold, now) => CloseKeepsInv(t, request, ticks, staleThreshold, now);
    case Marked(prices, at) => MarkKeepsInv(t, prices, at);
  }

  /** Every run from empty tables keeps the invariant, so no symbol ever has two open positions. */
  lemma {:induction false} RunKeepsInv(t: Tables, ops: seq<Op>)
    requires Inv(t)
    ensures Inv(RunOps(t, ops))
    decreases |ops|
  {
    if ops != [] {
      RunKeepsInv(t, ops[..|ops| - 1]);
      StepKeepsInv(RunOps(t, ops[..|ops| - 1]), ops[|ops| - 1]);
    }
  }

  lemma AtMostOneOpenPositionPerSymbol(ops: seq<Op>, j: nat, k: nat)
    requires j < |RunOps(EMPTY_TABLES, ops).positions| && k < |RunOps(EMPTY_TABLES, ops).positions|
    ensures var positions := RunOps(EMPTY_TABLES, ops).positions;
            && (positions[j].status == Open <==> positions[j].quantity > 0.0)
            && (positions[j].status == Open && positions[k].status == Open && positions[j].symbol == positions[k].symbol
                ==> j == k)
  {
    RunKeepsInv(EMPTY_TABLES, ops);
  }

  // ---------------------------------------------------------------------------------------------
  // Closed positions

  ghost predicate ClosedKept(t: Tables, next: Tables) {
    && |t.positions| <= |next.positions|
    && t.closedJournal <= next.closedJournal
    && (forall k :: 0 <= k < |t.positions| && t.positions[k].status == Closed ==> next.positions[k] == t.positions[k])
  }

  lemma OrderKeepsClosed(t: Tables, order: Order, now: Time)
    ensures ClosedKept(t, AfterOrder(t, order, now))
  {
    hide OpenPositionFromBuy, UpsertFill, OrderFill;
  }

  lemma CloseKeepsClosed(t: Tables, request: CloseRequest, ticks: map<string, MarkTick>, staleThreshold: nat, now: Time)
    ensures ClosedKept(t, AfterClose(t, request, ticks, staleThreshold, now))
  {
    hide AfterClose, CloseOutcome;
    CloseStep(t, request, ticks, staleThreshold, now);
  }

  lemma MarkKeepsClosed(t: Tables, prices: seq<MarkPriceInput>, at: Time)
    requires Inv(t)
    ensures ClosedKept(t, AfterMark(t, prices, at))
  {
    hide AfterMark;
    MarkStep(t, prices, at);
  }

  lemma StepKeepsClosed(t: Tables, op: Op)
    requires Inv(t)
    ensures ClosedKept(t, Apply(t, op))
  {
    hide AfterOrder, AfterClose, AfterMark, ClosedKept, Inv;
    match op
    case OrderFilled(order, now) => OrderKeepsClosed(t, order, now);
    case CloseRequested(request, ticks, staleThreshold, now) => CloseKeepsClosed(t, request, ticks, staleThreshold, now);
    case Marked(prices, at) => MarkKeepsClosed(t, prices, at);
  }

  /** A closed position is never reopened, nor changed in any field, by any later operation. */
  lemma {:induction false} ClosedPositionsAreFrozen(t: Tables, ops: seq<Op>)
    requires Inv(t)
    ensures ClosedKept(t, RunOps(t, ops))
    decreases |ops|
  {
    hide Apply, Inv;
    if ops != [] {
      ClosedPositionsAreFrozen(t, ops[..|ops| - 1]);
      RunKeepsInv(t, ops[..|ops| - 1]);
      StepKeepsClosed(RunOps(t, ops[..|ops| - 1]), ops[|ops| - 1]);
    }
  }

  lemma {:induction false} LatestFillExists(fills: seq<Fill>, id: Id, k: nat)
    requires k < |fills| && fills[k].positionId == Some(id)
    ensures LatestFill(fills, id).Some?
    decreases |fills|
  {
    if k < |fills| - 1 {
      LatestFillExists(fills[..|fills| - 1], id, k);
    }
  }

  /** Closing a closed position again returns its stored summary and changes nothing at all. */
  lemma RepeatedCloseChangesNothing(ops: seq<Op>, k: nat, request: CloseRequest, ticks: map<string, MarkTick>,
                                    staleThreshold: nat, now: Time)
    requires k < |RunOps(EMPTY_TABLES, ops).positions|
    requires RunOps(EMPTY_TABLES, ops).positions[k].status == Closed
    requires request.positionId == RunOps(EMPTY_TABLES, ops).positions[k].id && request.marketSimulated
    requires request.confirmationText == ExpectedConfirmation(RunOps(EMPTY_TABLES, ops).positions[k].symbol)
    ensures var t := RunOps(EMPTY_TABLES, ops);
            && AfterClose(t, request, ticks, staleThreshold, now) == t
            && StoredCloseSummary(t, t.positions[k]).Some?
            && CloseOutcome(t, request, ticks, staleThreshold, now)
                 == Success(StoredCloseSummary(t, t.positions[k]).value)
  {
    var t := RunOps(EMPTY_TABLES, ops);
    RunKeepsInv(EMPTY_TABLES, ops);
    var id := t.positions[k].id;
    var j :| 0 <= j < |t.fills| && t.fills[j].orderId == Closing(id) && t.fills[j].positionId == Some(id);
    LatestFillExists(t.fills, id, j);
    assert Ledger.Find(t.positions, id) == Some(k);
  }

  lemma {:induction false} LatestFillIsLatest(fills: seq<Fill>, id: Id)
    ensures var latest := LatestFill(fills, id);
            && (latest.Some? ==> latest.value in fills && latest.value.positionId == Some(id))
            && (forall f :: f in fills && f.positionId == Some(id) ==>
                  latest.Some? && f.filledAt <= latest.value.filledAt)
    decreases |fills|
  {
    if fills != [] {
      LatestFillIsLatest(fills[..|fills| - 1], id);
    }
  }

  ghost predicate NoFillAfter(fills: seq<Fill>, id: Id, at: Time) {
    forall f :: f in fills && f.positionId == Some(id) ==> f.filledAt <= at
  }

  /**
   * A repeated close names the fill the first one made exactly when no fill of the position is dated after the
   * close, and then it repeats the first summary in full. A later-dated fill is reported as the exit instead.
   */
  lemma RepeatedCloseReportsFirst(t: Tables, request: CloseRequest, ticks: map<string, MarkTick>,
                                  staleThreshold: nat, now: Time)
    requires Inv(t)
    requires CloseOutcome(t, request, ticks, staleThreshold, now).Success?
    requires !CloseOutcome(t, request, ticks, staleThreshold, now).value.alreadyClosed
    ensures var first := CloseOutcome(t, request, ticks, staleThreshold, now).value;
            var next := AfterClose(t, request, ticks, staleThreshold, now);
            var k := Ledger.Find(next.positions, request.positionId);
            && k.Some?
            && var again := StoredCloseSummary(next, next.positions[k.value]);
            && again.Some?
            && (again.value.fillId == first.fillId <==> NoFillAfter(t.fills, request.positionId, now))
            && (again.value.fillId == first.fillId <==> again.value == first.(alreadyClosed := true))
  {
    hide AfterClose, CloseOutcome;
    CloseKeepsInv(t, request, ticks, staleThreshold, now);
    CloseStep(t, request, ticks, staleThreshold, now);
    var id := request.positionId;
    var next := AfterClose(t, request, ticks, staleThreshold, now);
    var k := Ledger.Find(EnsureAccount(t, now).positions, id).value;
    assert Ledger.Find(next.positions, id) == Some(k);
    LatestFillIsLatest(t.fills, id);
    var closing := next.fills[|t.fills|];
    assert next.fills == t.fills + [closing];
    assert LatestFill(next.fills, id)
           == if LatestFill(t.fills, id).Some? && LatestFill(t.fills, id).value.filledAt > now
              then LatestFill(t.fills, id) else Some(closing);
  }

  /** The closing fill of a position, with nothing of that position stored after it, and the others dated by then. */
  ghost predicate ClosingFillLatest(fills: seq<Fill>, id: Id, closing: Fill, k: nat, until: Time) {
    && k < |fills| && fills[k] == closing && closing.positionId == Some(id) && closing.orderId == Closing(id)
    && (forall j :: k < j < |fills| ==> fills[j].positionId != Some(id))
    && (forall j :: 0 <= j < k && fills[j].positionId == Some(id) ==> fills[j].filledAt <= until)
  }

  lemma {:induction false} ClosingFillFound(fills: seq<Fill>, id: Id, closing: Fill, k: nat, until: Time)
    requires ClosingFillLatest(fills, id, closing, k, until) && until <= closing.filledAt
    ensures LatestFill(fills, id) == Some(closing)
    decreases |fills|
  {
    var before := fills[..|fills| - 1];
    if k < |fills| - 1 {
      ClosingFillFound(before, id, closing, k, until);
    } else {
      LatestFillIsLatest(before, id);
    }
  }

  lemma UpsertKeepsClosingFillLatest(fills: seq<Fill>, fill: Fill, id: Id, closing: Fill, k: nat, until: Time)
    requires fill.orderId.Placed? && fill.positionId != Some(id) && ClosingFillLatest(fills, id, closing, k, until)
    ensures ClosingFillLatest(UpsertFill(fills, fill), id, closing, k, until)
  {
  }

  lemma OrderKeepsClosingFill(t: Tables, order: Order, now: Time, id: Id, closing: Fill, k: nat, until: Time)
    requires Inv(t) && id in t.closedJournal && ClosingFillLatest(t.fills, id, closing, k, until)
    ensures ClosingFillLatest(AfterOrder(t, order, now).fills, id, closing, k, until)
  {
    hide AfterOrder, UpsertFill, ClosingFillLatest;
    OrderStep(t, order, now);
    OrderKeepsInv(t, order, now);
    var next := AfterOrder(t, order, now);
    if order.executionState == "PAPER_FILLED" && order.filledQty > 0.0 {
      var fill: Fill :| fill.orderId.Placed? && next.fills == UpsertFill(t.fills, fill)
                        && exists j :: 0 <= j < |next.positions| && next.positions[j].status == Open
                                       && fill.positionId == Some(next.positions[j].id);
      UpsertKeepsClosingFillLatest(t.fills, fill, id, closing, k, until);
    }
  }

  lemma CloseKeepsClosingFill(t: Tables, request: CloseRequest, ticks: map<string, MarkTick>, staleThreshold: nat,
                              now: Time, id: Id, closing: Fill, k: nat, until: Time)
    requires Inv(t) && id in t.closedJournal && ClosingFillLatest(t.fills, id, closing, k, until)
    ensures ClosingFillLatest(AfterClose(t, request, ticks, staleThreshold, now).fills, id, closing, k, until)
  {
    hide AfterClose, CloseOutcome;
    CloseStep(t, request, ticks, staleThreshold, now);
    var next := AfterClose(t, request, ticks, staleThreshold, now);
    if next.fills != t.fills {
      assert forall j :: 0 <= j < |t.fills| ==> next.fills[..|t.fills|][j] == next.fills[j];
    }
  }

  lemma MarkKeepsFills(t: Tables, prices: seq<MarkPriceInput>, at: Time)
    ensures AfterMark(t, prices, at).fills == t.fills
  {
  }

  lemma StepKeepsClosingFill(t: Tables, op: Op, id: Id, closing: Fill, k: nat, until: Time)
    requires Inv(t) && id in t.closedJournal && ClosingFillLatest(t.fills, id, closing, k, until)
    ensures ClosingFillLatest(Apply(t, op).fills, id, closing, k, until)
  {
    hide AfterOrder, AfterClose, AfterMark, ClosingFillLatest, Inv;
    match op
    case OrderFilled(order, now) =>
      OrderKeepsClosingFill(t, order, now, id, closing, k, until);
    case CloseRequested(request, ticks, staleThreshold, now) =>
      CloseKeepsClosingFill(t, request, ticks, staleThreshold, now, id, closing, k, until);
    case Marked(prices, at) =>
      MarkKeepsFills(t, prices, at);
  }

  lemma {:induction false} RunKeepsClosingFill(t: Tables, ops: seq<Op>, id: Id, closing: Fill, k: nat, until: Time)
    requires Inv(t) && id in t.closedJournal && ClosingFillLatest(t.fills, id, closing, k, until)
    ensures ClosingFillLatest(RunOps(t, ops).fills, id, closing, k, until)
    decreases |ops|
  {
    if ops != [] {
      var before := ops[..|ops| - 1];
      RunKeepsClosingFill(t, before, id, closing, k, until);
      RunKeepsInv(t, before);
      ClosedPositionsAreFrozen(t, before);
      StepKeepsClosingFill(RunOps(t, before), ops[|ops| - 1], id, closing, k, until);
    }
  }

  /** However long after, a repeated close repeats the first summary, when no fill was dated after that close. */
  lemma RepeatedCloseReportsFirstForever(t: Tables, request: CloseRequest, ticks: map<string, MarkTick>,
                                         staleThreshold: nat, now: Time, later: seq<Op>)
    requires Inv(t)
    requires CloseOutcome(t, request, ticks, staleThreshold, now).Success?
    requires !CloseOutcome(t, request, ticks, staleThreshold, now).value.alreadyClosed
    requires NoFillAfter(t.fills, request.positionId, now)
    ensures var first := CloseOutcome(t, request, ticks, staleThreshold, now).value;
            var end := RunOps(AfterClose(t, request, ticks, staleThreshold, now), later);
            var k := Ledger.Find(end.positions, request.positionId);
            k.Some? && StoredCloseSummary(end, end.positions[k.value]) == Some(first.(alreadyClosed := true))
  {
    hide AfterClose, CloseOutcome, RunOps;
    RepeatedCloseReportsFirst(t, request, ticks, staleThreshold, now);
    CloseKeepsInv(t, request, ticks, staleThreshold, now);
    CloseStep(t, request, ticks, staleThreshold, now);
    var id := request.positionId;
    var next := AfterClose(t, request, ticks, staleThreshold, now);
    var closing := next.fills[|t.fills|];
    assert forall j :: 0 <= j < |t.fills| ==> next.fills[j] == t.fills[j];
    assert ClosingFillLatest(next.fills, id, closing, |t.fills|, now);
    ClosingFillFound(next.fills, id, closing, |t.fills|, now);
    RunKeepsInv(next, later);
    ClosedPositionsAreFrozen(next, later);
    RunKeepsClosingFill(next, later, id, closing, |t.fills|, now);
    var end := RunOps(next, later);
    ClosingFillFound(end.fills, id, closing, |t.fills|, now);
    var k := Ledger.Find(next.positions, id).value;
    assert end.positions[k] == next.positions[k];
    assert Ledger.Find(end.positions, id) == Some(k);
  }

  // ---------------------------------------------------------------------------------------------
  // Cash

  /** What one operation moves in or out of cash: an accounted order pays its notional, a close returns its own, marking nothing. */
  function OpCash(t: Tables, op: Op): real {
    match op
    case OrderFilled(order, _) =>
      if order.executionState == "PAPER_FILLED" && order.filledQty > 0.0 then -(FillPrice(order) * order.filledQty)
      else 0.0
    case CloseRequested(request, ticks, staleThreshold, now) =>
      var outcome := CloseOutcome(t, request, ticks, staleThreshold, now);
      if outcome.Success? && !outcome.value.alreadyClosed then outcome.value.exitPrice * outcome.value.quantity
      else 0.0
    case Marked(_, _) => 0.0
  }

  function RunCash(t: Tables, ops: seq<Op>): real {
    if ops == [] then 0.0
    else
      var before := ops[..|ops| - 1];
      RunCash(t, before) + OpCash(RunOps(t, before), ops[|ops| - 1])
  }

  /** The account's realized PnL less what its positions carry is exactly the cash moved so far. */
  ghost predicate BookKept(book: Ledger.Book, cash: real) {
    book.account.initialEquity == DEFAULT_INITIAL_EQUITY && Ledger.CostBalance(book) == cash
  }

  ghost predicate CashKept(t: Tables, cash: real) {
    match t.account
    case None => cash == 0.0
    case Some(account) => BookKept(Ledger.Book(account, t.positions), cash)
  }

  lemma EnsureAccountKeepsCash(t: Tables, now: Time, cash: real)
    requires Inv(t) && CashKept(t, cash)
    ensures CashKept(EnsureAccount(t, now), cash)
  {
  }

  lemma BuyMovesCash(account: Account, positions: seq<Position>, i: Option<nat>, fill: Fill, freshId: Id, cash: real)
    requires BookKept(Ledger.Book(account, positions), cash) && fill.quantity > 0.0 && fill.TradeCost() == 0.0
    requires i.Some? ==> i.value < |positions| && positions[i.value].quantity > 0.0
    ensures var r := OpenPositionFromBuy(account, if i.Some? then Some(positions[i.value]) else None, fill, freshId);
            && r.Success?
            && BookKept(Ledger.Book(r.value.account, if i.Some? then positions[i.value := r.value.position]
                                                     else positions + [r.value.position]),
                        cash - fill.notional)
  {
    hide OpenPositionFromBuy, Ledger.CostBalance;
    if i.Some? {
      Ledger.AddToPosition(Ledger.Book(account, positions), i.value, fill, freshId);
    } else {
      Ledger.OpenNewPosition(Ledger.Book(account, positions), fill, freshId);
    }
  }

  lemma OpenRowHolds(t: Tables, now: Time, symbol: string)
    requires Inv(t)
    ensures var t1 := EnsureAccount(t, now);
            var i := FindOpen(t1.positions, symbol);
            i.Some? ==> t1.positions[i.value].quantity > 0.0
  {
  }

  lemma OrderMovesCash(t: Tables, order: Order, now: Time, cash: real)
    requires Inv(t) && CashKept(t, cash)
    ensures CashKept(AfterOrder(t, order, now), cash + OpCash(t, OrderFilled(order, now)))
  {
    hide OpenPositionFromBuy, UpsertFill, OrderFill, FillPrice, FindOpen, BookKept, Inv;
    EnsureAccountKeepsCash(t, now, cash);
    if order.executionState == "PAPER_FILLED" {
      var t1 := EnsureAccount(t, now);
      var i := FindOpen(t1.positions, order.symbol);
      var positionId := if i.Some? then Some(t1.positions[i.value].id) else None;
      var fill := OrderFill(order, positionId, t1.nextId, now);
      OrderFillFields(order, positionId, t1.nextId, now);
      if order.filledQty > 0.0 {
        OpenRowHolds(t, now, order.symbol);
        BuyMovesCash(t1.account.value, t1.positions, i, fill, t1.nextId + 1, cash);
      } else {
        BuyShape(t1.account.value, if i.Some? then Some(t1.positions[i.value]) else None, fill, t1.nextId + 1);
      }
    }
  }

  /** The account and position rows a first close leaves are those of the simulated market close. */
  lemma CloseRows(t: Tables, request: CloseRequest, ticks: map<string, MarkTick>, staleThreshold: nat, now: Time)
    ensures var outcome := CloseOutcome(t, request, ticks, staleThreshold, now);
            var t1, next := EnsureAccount(t, now), AfterClose(t, request, ticks, staleThreshold, now);
            if outcome.Success? && !outcome.value.alreadyClosed then
              var i := Ledger.Find(t1.positions, request.positionId);
              && i.Some?
              && var p := t1.positions[i.value];
                 var r := ClosePositionMarketSimulated(t1.account.value, p, Closing(p.id), t1.nextId,
                                                       outcome.value.exitPrice, 0.0, 0.0, now);
              && r.Success? && outcome.value.quantity == p.quantity
              && next.account == Some(r.value.applied.account)
              && next.positions == t1.positions[i.value := r.value.applied.position.(orderId := Some(Closing(p.id)))]
            else next == t || next == t1
  {
    hide ClosePositionMarketSimulated, StoredCloseSummary, ExpectedConfirmation, StaleTick, FindFill;
    StoredSummaryIsOld(EnsureAccount(t, now));
  }

  lemma StoredSummaryIsOld(t: Tables)
    ensures forall p :: StoredCloseSummary(t, p).Some? ==> StoredCloseSummary(t, p).value.alreadyClosed
  {
  }

  lemma CloseMovesCash(t: Tables, request: CloseRequest, ticks: map<string, MarkTick>, staleThreshold: nat, now: Time,
                       cash: real)
    requires Inv(t) && CashKept(t, cash)
    ensures CashKept(AfterClose(t, request, ticks, staleThreshold, now),
                     cash + OpCash(t, CloseRequested(request, ticks, staleThreshold, now)))
  {
    hide Ledger.CostBalance, Inv, AfterClose, CloseOutcome, ClosePositionMarketSimulated;
    EnsureAccountKeepsCash(t, now, cash);
    CloseRows(t, request, ticks, staleThreshold, now);
    var t1 := EnsureAccount(t, now);
    var outcome := CloseOutcome(t, request, ticks, staleThreshold, now);
    if outcome.Success? && !outcome.value.alreadyClosed {
      var i := Ledger.Find(t1.positions, request.positionId).value;
      CloseBalance(t1, i, Closing(t1.positions[i].id), t1.nextId, outcome.value.exitPrice, now);
    }
  }

  lemma CloseBalance(t: Tables, i: nat, orderId: OrderId, fillId: Id, exitPrice: real, now: Time)
    requires t.account.Some? && i < |t.positions|
    ensures var p := t.positions[i];
            var r := ClosePositionMarketSimulated(t.account.value, p, orderId, fillId, exitPrice, 0.0, 0.0, now);
            r.Success? ==>
              var next := Ledger.Book(r.value.applied.account,
                                      t.positions[i := r.value.applied.position.(orderId := Some(orderId))]);
              && next.account.initialEquity == t.account.value.initialEquity
              && Ledger.CostBalance(next)
                 == Ledger.CostBalance(Ledger.Book(t.account.value, t.positions)) + exitPrice * p.quantity
  {
    var p := t.positions[i];
    var r := ClosePositionMarketSimulated(t.account.value, p, orderId, fillId, exitPrice, 0.0, 0.0, now);
    if r.Success? {
      Ledger.CloseEffect(t.account.value, p, exitPrice, p.quantity, now, 0.0);
      Ledger.ReplaceBalances(Ledger.Book(t.account.value, t.positions), i, r.value.applied.account,
                             r.value.applied.position.(orderId := Some(orderId)));
    }
  }

  lemma MarkMovesNoCash(t: Tables, prices: seq<MarkPriceInput>, at: Time, cash: real)
    requires Inv(t) && CashKept(t, cash)
    ensures CashKept(AfterMark(t, prices, at), cash)
  {
    hide AfterMark, OpenRows;
    EnsureAccountKeepsCash(t, at, cash);
    MarkStep(t, prices, at);
    SumSame(EnsureAccount(t, at).positions, AfterMark(t, prices, at).positions, Ledger.CARRIED_COST);
  }

  lemma {:induction false} RunMovesCash(ops: seq<Op>)
    ensures CashKept(RunOps(EMPTY_TABLES, ops), RunCash(EMPTY_TABLES, ops))
    decreases |ops|
  {
    if ops != [] {
      var before := ops[..|ops| - 1];
      RunMovesCash(before);
      RunKeepsInv(EMPTY_TABLES, before);
      var t := RunOps(EMPTY_TABLES, before);
      hide CashKept, AfterOrder, AfterClose, AfterMark;
      match ops[|ops| - 1]
      case OrderFilled(order, now) =>
        OrderMovesCash(t, order, now, RunCash(EMPTY_TABLES, before));
      case CloseRequested(request, ticks, staleThreshold, now) =>
        CloseMovesCash(t, request, ticks, staleThreshold, now, RunCash(EMPTY_TABLES, before));
      case Marked(prices, at) =>
        MarkMovesNoCash(t, prices, at, RunCash(EMPTY_TABLES, before));
    }
  }

  /** The service never charges costs, so in every run cash is conserved: no money appears or vanishes. */
  lemma CashIsConserved(ops: seq<Op>, prices: seq<MarkPriceInput>)
    requires RunOps(EMPTY_TABLES, ops).account.Some?
    ensures var t := RunOps(EMPTY_TABLES, ops);
            MarkedSummary(t.account.value, t.positions, prices).equity
            == DEFAULT_INITIAL_EQUITY + RunCash(EMPTY_TABLES, ops)
               + SumOf(t.positions, Ledger.MarkValue(prices)) + SumOf(t.positions, Ledger.UnpricedCost(prices))
  {
    RunMovesCash(ops);
    Ledger.MarkedValueSplits(RunOps(EMPTY_TABLES, ops).positions, prices);
  }

  lemma {:induction false} ClosedRowsAddNothing(positions: seq<Position>, prices: seq<MarkPriceInput>)
    requires forall k :: 0 <= k < |positions| && positions[k].status == Closed ==> positions[k].quantity == 0.0
    ensures SumOf(OpenRows(positions), UnrealizedAt(prices)) == SumOf(positions, UnrealizedAt(prices))
    decreases |positions|
  {
    if positions != [] {
      var n := |positions| - 1;
      ClosedRowsAddNothing(positions[..n], prices);
      if positions[n].status == Open {
        SumAppend(OpenRows(positions[..n]), positions[n], UnrealizedAt(prices));
      } else {
        assert UnrealizedAt(prices)(positions[n]) == 0.0;
        assert OpenRows(positions) == OpenRows(positions[..n]);
      }
    }
  }

  lemma MarkedEquity(t: Tables, prices: seq<MarkPriceInput>, at: Time)
    requires Inv(t)
    ensures var next := AfterMark(t, prices, at);
            next.account.Some?
            && next.account.value.currentEquity == MarkedSummary(next.account.value, next.positions, prices).equity
  {
    hide AfterMark, OpenRows;
    MarkStep(t, prices, at);
    var t1 := EnsureAccount(t, at);
    ClosedRowsAddNothing(t1.positions, prices);
    SumSame(t1.positions, AfterMark(t, prices, at).positions, UnrealizedAt(prices));
  }

  lemma RunAppend(ops: seq<Op>, op: Op)
    ensures RunOps(EMPTY_TABLES, ops + [op]) == Apply(RunOps(EMPTY_TABLES, ops), op)
    ensures RunCash(EMPTY_TABLES, ops + [op]) == RunCash(EMPTY_TABLES, ops) + OpCash(RunOps(EMPTY_TABLES, ops), op)
  {
    hide Apply, OpCash;
    assert (ops + [op])[..|ops|] == ops;
  }

  /** So the equity that marking stores is the initial equity, the cash moved, and what the positions are worth. */
  lemma MarkedEquityIsConserved(ops: seq<Op>, prices: seq<MarkPriceInput>, at: Time)
    ensures var t := RunOps(EMPTY_TABLES, ops + [Marked(prices, at)]);
            && t.account.Some?
            && t.account.value.currentEquity
               == DEFAULT_INITIAL_EQUITY + RunCash(EMPTY_TABLES, ops)
                  + SumOf(t.positions, Ledger.MarkValue(prices)) + SumOf(t.positions, Ledger.UnpricedCost(prices))
  {
    hide AfterMark, RunOps, RunCash, MarkedSummary, Inv;
    RunAppend(ops, Marked(prices, at));
    RunKeepsInv(EMPTY_TABLES, ops);
    MarkedEquity(RunOps(EMPTY_TABLES, ops), prices, at);
    CashIsConserved(ops + [Marked(prices, at)], prices);
  }

  // ---------------------------------------------------------------------------------------------
  // Values

  /** Every position is valued at its mark, and the account's equity adds up. */
  ghost predicate Valued(t: Tables) {
    && (t.account.Some? ==> AccountAddsUp(t.account.value))
    && (forall k :: 0 <= k < |t.positions| ==> RowValued(t.positions[k]))
  }

  lemma OrderKeepsValues(t: Tables, order: Order, now: Time)
    requires Valued(t)
    ensures Valued(AfterOrder(t, order, now))
  {
    hide OpenPositionFromBuy, UpsertFill, OrderFill, FindOpen, RowValued;
    if order.executionState == "PAPER_FILLED" {
      var t1 := EnsureAccount(t, now);
      var i := FindOpen(t1.positions, order.symbol);
      var existing := if i.Some? then Some(t1.positions[i.value]) else None;
      var fill := OrderFill(order, if i.Some? then Some(t1.positions[i.value].id) else None, t1.nextId, now);
      if OpenPositionFromBuy(t1.account.value, existing, fill, t1.nextId + 1).Success? {
        BuyValues(t1.account.value, existing, fill, t1.nextId + 1);
      }
    }
  }

  lemma MarketCloseValues(account: Account, position: Position, orderId: OrderId, fillId: Id, exitPrice: real, at: Time)
    ensures var r := ClosePositionMarketSimulated(account, position, orderId, fillId, exitPrice, 0.0, 0.0, at);
            r.Success? ==>
              && RowValued(r.value.applied.position.(orderId := Some(orderId))) && AccountAddsUp(r.value.applied.account)
              && r.value.applied.account.unrealizedPnl == 0.0
  {
    hide ClosePosition;
    if ClosePosition(account, position, exitPrice, position.quantity, at, 0.0 + 0.0).Success? {
      CloseValues(account, position, exitPrice, position.quantity, at, 0.0 + 0.0);
    }
  }

  lemma CloseKeepsValues(t: Tables, request: CloseRequest, ticks: map<string, MarkTick>, staleThreshold: nat, now: Time)
    requires Valued(t)
    ensures Valued(AfterClose(t, request, ticks, staleThreshold, now))
    ensures var outcome := CloseOutcome(t, request, ticks, staleThreshold, now);
            outcome.Success? && !outcome.value.alreadyClosed ==>
              && AfterClose(t, request, ticks, staleThreshold, now).account.Some?
              && AfterClose(t, request, ticks, staleThreshold, now).account.value.unrealizedPnl == 0.0
  {
    hide AfterClose, CloseOutcome, ClosePositionMarketSimulated, RowValued;
    CloseRows(t, request, ticks, staleThreshold, now);
    var t1 := EnsureAccount(t, now);
    var outcome := CloseOutcome(t, request, ticks, staleThreshold, now);
    if outcome.Success? && !outcome.value.alreadyClosed {
      var i := Ledger.Find(t1.positions, request.positionId).value;
      MarketCloseValues(t1.account.value, t1.positions[i], Closing(t1.positions[i].id), t1.nextId,
                        outcome.value.exitPrice, now);
    }
  }

  /** Only marking gives the account the unrealized PnL of all its open positions. */
  lemma MarkKeepsValues(t: Tables, prices: seq<MarkPriceInput>, at: Time)
    requires Inv(t) && Valued(t)
    ensures Valued(AfterMark(t, prices, at))
    ensures AfterMark(t, prices, at).account.Some?
    ensures AfterMark(t, prices, at).account.value.unrealizedPnl
            == SumOf(OpenRows(EnsureAccount(t, at).positions), UnrealizedAt(prices))
  {
    hide AfterMark, MarkedPosition, OpenRows, RowValued;
    MarkStep(t, prices, at);
    var t1 := EnsureAccount(t, at);
    forall k | 0 <= k < |t1.positions|
      ensures RowValued(MarkedPosition(t1.positions[k], prices, at))
    {
      MarkValues(t1.positions[k], prices, at);
    }
  }

  lemma StepKeepsValues(t: Tables, op: Op)
    requires Inv(t) && Valued(t)
    ensures Valued(Apply(t, op))
  {
    hide Inv, Valued, AfterOrder, AfterClose, AfterMark;
    match op
    case OrderFilled(order, now) => OrderKeepsValues(t, order, now);
    case CloseRequested(request, ticks, staleThreshold, now) => CloseKeepsValues(t, request, ticks, staleThreshold, now);
    case Marked(prices, at) => MarkKeepsValues(t, prices, at);
  }

  /**
   * In every run the equity of the account is its initial equity plus realized and unrealized PnL, and every position,
   * filled, closed in part or marked, has the unrealized PnL that its last mark gives it.
   */
  lemma {:induction false} RunKeepsValues(ops: seq<Op>)
    ensures Valued(RunOps(EMPTY_TABLES, ops))
    decreases |ops|
  {
    hide Inv, Apply, RowValued;
    if ops != [] {
      var before := ops[..|ops| - 1];
      RunKeepsValues(before);
      RunKeepsInv(EMPTY_TABLES, before);
      StepKeepsValues(RunOps(EMPTY_TABLES, before), ops[|ops| - 1]);
    }
  }
}
