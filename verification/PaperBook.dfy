/**
 * The default paper account and its tables, as order fills, operator closes and marking drive them. Each operation is one
 * atomic step; generated identifiers come from a counter, so they never repeat.
 */
module PaperBook {
  import opened Wrappers
  import opened Sums
  import opened Accounting
  import Ledger
  import Text

  const DEFAULT_INITIAL_EQUITY := 1000000.0

  datatype Order = Order(
    id: Id,
    executionState: string,
    symbol: string,
    quantity: real,
    filledQty: real,
    filledPrice: Option<real>,
    avgFillPrice: Option<real>,
    limitPrice: Option<real>,
    filledAt: Option<Time>)

  datatype CloseRequest = CloseRequest(
    positionId: Id,
    confirmationText: string,
    marketSimulated: bool,
    allowStalePrice: bool)

  datatype MarkTick = MarkTick(price: real, receivedAt: Time)

  datatype CloseSummary = CloseSummary(
    alreadyClosed: bool,
    positionId: Id,
    symbol: string,
    quantity: real,
    entryPrice: real,
    exitPrice: real,
    realizedPnl: real,
    fee: real,
    slippageCost: real,
    closedAt: Option<Time>,
    fillId: Id)

  datatype CloseError =
    | UnsupportedCloseMode
    | PositionNotFound
    | WrongConfirmationText
    | AlreadyClosed
    | MissingMarketPrice
    | StaleMarketPrice
    | DuplicateClosingOrder
    | Unexpected(error: AccountingError)

  datatype Tables = Tables(
    account: Option<Account>,
    positions: seq<Position>,
    fills: seq<Fill>,
    closedJournal: set<Id>,
    nextId: Id)

  const EMPTY_TABLES := Tables(None, [], [], {}, 0)

  // ---------------------------------------------------------------------------------------------
  // Queries

  /** The first open position for the symbol: the row the open-position query returns. */
  function FindOpen(positions: seq<Position>, symbol: string): (i: Option<nat>)
    ensures i.Some? ==> i.value < |positions| && positions[i.value].symbol == symbol
                        && positions[i.value].status == Open
    ensures i.None? ==> forall k :: 0 <= k < |positions| ==>
                          !(positions[k].symbol == symbol && positions[k].status == Open)
  {
    if positions == [] then None
    else
      var earlier := FindOpen(positions[..|positions| - 1], symbol);
      var last := positions[|positions| - 1];
      if earlier.Some? then earlier
      else if last.symbol == symbol && last.status == Open then Some(|positions| - 1)
      else None
  }

  /** The latest fill of a position by fill time; of equally late ones, the one stored last. */
  function LatestFill(fills: seq<Fill>, positionId: Id): Option<Fill> {
    if fills == [] then None
    else
      var earlier := LatestFill(fills[..|fills| - 1], positionId);
      var last := fills[|fills| - 1];
      if last.positionId != Some(positionId) then earlier
      else if earlier.Some? && earlier.value.filledAt > last.filledAt then earlier
      else Some(last)
  }

  function FindFill(fills: seq<Fill>, orderId: OrderId): (i: Option<nat>)
    ensures i.Some? ==> i.value < |fills| && fills[i.value].orderId == orderId
    ensures i.None? ==> forall k :: 0 <= k < |fills| ==> fills[k].orderId != orderId
  {
    if fills == [] then None
    else
      var earlier := FindFill(fills[..|fills| - 1], orderId);
      if earlier.Some? then earlier
      else if fills[|fills| - 1].orderId == orderId then Some(|fills| - 1)
      else None
  }

  /** A fill is stored once per order: a second one for the order only moves the row to the new position. */
  function UpsertFill(fills: seq<Fill>, fill: Fill): seq<Fill> {
    var i := FindFill(fills, fill.orderId);
    if i.Some? then fills[i.value := fills[i.value].(positionId := fill.positionId)] else fills + [fill]
  }

  function StoredCloseSummary(t: Tables, position: Position): Option<CloseSummary> {
    var fill := LatestFill(t.fills, position.id);
    if position.status != Closed || position.id !in t.closedJournal || fill.None? then None
    else Some(SummaryFrom(position, fill.value))
  }

  /** What a repeated close reports when the query picks this fill of the position. */
  function SummaryFrom(position: Position, fill: Fill): CloseSummary {
    CloseSummary(true, position.id, position.symbol, fill.quantity, position.entryPrice, fill.price,
                 position.realizedPnl, fill.fee, fill.slippageCost, position.closedAt, fill.id)
  }

  // ---------------------------------------------------------------------------------------------
  // Filled orders

  function EnsureAccount(t: Tables, now: Time): Tables {
    if t.account.Some? then t
    else t.(account := Some(Account(t.nextId, DEFAULT_INITIAL_EQUITY, DEFAULT_INITIAL_EQUITY, 0.0, 0.0, now)),
            nextId := t.nextId + 1)
  }

  function FillPrice(order: Order): real {
    order.filledPrice.GetOr(order.avgFillPrice.GetOr(order.limitPrice.GetOr(order.quantity)))
  }

  function OrderFill(order: Order, positionId: Option<Id>, fillId: Id, now: Time): Fill {
    var price := FillPrice(order);
    Fill(fillId, Placed(order.id), positionId, order.symbol, price, order.filledQty, price * order.filledQty,
         0.0, 0.0, order.filledAt.GetOr(now))
  }

  /** The open position of the order's symbol, valued at its mark, on which alone the account's unrealized PnL rests. */
  ghost predicate Touched(p: Position, account: Account, order: Order) {
    p.symbol == order.symbol && p.status == Open && RowValued(p) && account.unrealizedPnl == p.unrealizedPnl
  }

  /** The tables after a filled order is accounted; the account is created even when the fill is then refused. */
  function AfterOrder(t: Tables, order: Order, now: Time): Tables {
    if order.executionState != "PAPER_FILLED" then t
    else
      var t1 := EnsureAccount(t, now);
      var i := FindOpen(t1.positions, order.symbol);
      var existing := if i.Some? then Some(t1.positions[i.value]) else None;
      var fill := OrderFill(order, if i.Some? then Some(t1.positions[i.value].id) else None, t1.nextId, now);
      match OpenPositionFromBuy(t1.account.value, existing, fill, t1.nextId + 1)
      case Failure(_) => t1.(nextId := t1.nextId + 2)
      case Success(app) =>
        Tables(Some(app.account),
               if i.Some? then t1.positions[i.value := app.position] else t1.positions + [app.position],
               UpsertFill(t1.fills, fill.(positionId := Some(app.position.id))),
               t1.closedJournal,
               t1.nextId + 2)
  }

  // ---------------------------------------------------------------------------------------------
  // Closes

  function ExpectedConfirmation(symbol: string): string { "CLOSE " + Text.ToAsciiUpper(Text.Trim(symbol)) }

  /** A price from the future has no age, so it is never stale. */
  predicate StaleTick(tick: MarkTick, staleThreshold: nat, now: Time) {
    now - tick.receivedAt > staleThreshold
  }

  function CloseOutcome(t: Tables, request: CloseRequest, ticks: map<string, MarkTick>, staleThreshold: nat, now: Time)
    : Result<CloseSummary, CloseError>
  {
    if !request.marketSimulated then Failure(UnsupportedCloseMode)
    else
      var t1 := EnsureAccount(t, now);
      var i := Ledger.Find(t1.positions, request.positionId);
      if i.None? then Failure(PositionNotFound)
      else
        var p := t1.positions[i.value];
        if request.confirmationText != ExpectedConfirmation(p.symbol) then Failure(WrongConfirmationText)
        else if p.status == Closed then
          var stored := StoredCloseSummary(t1, p);
          if stored.Some? then Success(stored.value) else Failure(AlreadyClosed)
        else if p.symbol !in ticks then Failure(MissingMarketPrice)
        else if StaleTick(ticks[p.symbol], staleThreshold, now) && !request.allowStalePrice then
          Failure(StaleMarketPrice)
        else
          match ClosePositionMarketSimulated(t1.account.value, p, Closing(p.id), t1.nextId, ticks[p.symbol].price,
                                             0.0, 0.0, now)
          case Failure(e) => Failure(Unexpected(e))
          case Success(done) =>
            if FindFill(t1.fills, Closing(p.id)).Some? then Failure(DuplicateClosingOrder)
            else
              Success(CloseSummary(false, p.id, p.symbol, p.quantity, p.entryPrice, ticks[p.symbol].price,
                                   done.realizedPnl, 0.0, 0.0, Some(now), done.fill.id))
  }

  function AfterClose(t: Tables, request: CloseRequest, ticks: map<string, MarkTick>, staleThreshold: nat, now: Time)
    : Tables
  {
    if !request.marketSimulated then t
    else
      var t1 := EnsureAccount(t, now);
      var outcome := CloseOutcome(t, request, ticks, staleThreshold, now);
      if outcome.Failure? || outcome.value.alreadyClosed then t1
      else
        var i := Ledger.Find(t1.positions, request.positionId);
        if i.None? then t1
        else
          var p := t1.positions[i.value];
          match ClosePositionMarketSimulated(t1.account.value, p, Closing(p.id), t1.nextId, outcome.value.exitPrice,
                                             0.0, 0.0, now)
          case Failure(_) => t1
          case Success(done) =>
            Tables(Some(done.applied.account),
                   t1.positions[i.value := done.applied.position.(orderId := Some(Closing(p.id)))],
                   t1.fills + [done.fill],
                   t1.closedJournal + {p.id},
                   t1.nextId + 1)
  }

  // ---------------------------------------------------------------------------------------------
  // Marking

  function OpenRows(positions: seq<Position>): seq<Position> {
    if positions == [] then []
    else
      var last := positions[|positions| - 1];
      OpenRows(positions[..|positions| - 1]) + if last.status == Open then [last] else []
  }

  function MarkedRows(open: seq<Position>, prices: seq<MarkPriceInput>, at: Time): seq<Position> {
    seq(|open|, i requires 0 <= i < |open| => MarkedPosition(open[i], prices, at))
  }

  /** Every stored row replaced by the row of the same position, where one is written. */
  function Written(positions: seq<Position>, rows: seq<Position>): seq<Position> {
    seq(|positions|, i requires 0 <= i < |positions| =>
      var k := Ledger.Find(rows, positions[i].id);
      if k.Some? then rows[k.value] else positions[i])
  }

  /** Marking writes whole rows, of the account and of the positions that were open, as they were when it read them. */
  function AfterMarkWrite(t: Tables, read: Tables, prices: seq<MarkPriceInput>, at: Time): Tables
    requires read.account.Some?
  {
    var account := read.account.value;
    var open := OpenRows(read.positions);
    t.(account := Some(WithSummary(account, MarkedSummary(account, open, prices), at)),
       positions := Written(t.positions, MarkedRows(open, prices, at)))
  }

  /** Marking with nothing in between its reading and its writing. */
  function AfterMark(t: Tables, prices: seq<MarkPriceInput>, at: Time): Tables {
    var read := EnsureAccount(t, at);
    AfterMarkWrite(read, read, prices, at)
  }

  ghost predicate DistinctIds(positions: seq<Position>) {
    forall j, k :: 0 <= j < k < |positions| ==> positions[j].id != positions[k].id
  }

  lemma FindAppends(rows: seq<Position>, p: Position, id: Id)
    ensures var earlier := Ledger.Find(rows, id);
            Ledger.Find(rows + [p], id)
            == if earlier.Some? then earlier else if p.id == id then Some(|rows|) else None
  {
    assert (rows + [p])[..|rows|] == rows;
  }

  lemma WrittenExtends(positions: seq<Position>, rows: seq<Position>, k: nat)
    requires DistinctIds(positions) && k < |rows| && Ledger.Find(rows[..k], rows[k].id).None?
    ensures var i := Ledger.Find(positions, rows[k].id);
            Written(positions, rows[..k + 1])
            == if i.Some? then Written(positions, rows[..k])[i.value := rows[k]] else Written(positions, rows[..k])
  {
    hide Ledger.Find;
    assert rows[..k + 1] == rows[..k] + [rows[k]];
    forall j | 0 <= j < |positions|
      ensures Written(positions, rows[..k + 1])[j]
              == if positions[j].id == rows[k].id then rows[k] else Written(positions, rows[..k])[j]
    {
      FindAppends(rows[..k], rows[k], positions[j].id);
    }
  }

  /** The same tables as the service holds them, with its three entry points. */
  class PaperTables {
    var account: Option<Account>
    var positions: seq<Position>
    var fills: seq<Fill>
    var closedJournal: set<Id>
    var nextId: Id

    function State(): Tables
      reads this
    {
      Tables(account, positions, fills, closedJournal, nextId)
    }

    constructor ()
      ensures State() == EMPTY_TABLES
    {
      account, positions, fills, closedJournal, nextId := None, [], [], {}, 0;
    }

    method EnsureDefaultPaperAccount(now: Time) returns (current: Account)
      modifies this
      ensures State() == EnsureAccount(old(State()), now)
      ensures account == Some(current)
    {
      match account {
        case Some(existing) =>
          current := existing;
        case None =>
          current := Account(nextId, DEFAULT_INITIAL_EQUITY, DEFAULT_INITIAL_EQUITY, 0.0, 0.0, now);
          nextId := nextId + 1;
          account := Some(current);
      }
    }

    method PersistPaperFillAccounting(order: Order, now: Time) returns (r: Result<Option<Account>, AccountingError>)
      modifies this
      ensures State() == AfterOrder(old(State()), order, now)
      ensures order.executionState != "PAPER_FILLED" ==> r == Success(None)
      ensures order.executionState == "PAPER_FILLED" && r.Success? ==> r.value == account && account.Some?
      ensures order.executionState == "PAPER_FILLED" && r.Failure? ==>
                State().(nextId := 0) == EnsureAccount(old(State()), now).(nextId := 0)
      ensures order.executionState == "PAPER_FILLED"
              && (forall k :: 0 <= k < |old(positions)| ==> old(positions)[k].quantity >= 0.0) ==>
                (r.Success? <==> order.filledQty > 0.0)
      ensures order.executionState == "PAPER_FILLED" && r.Success? ==>
                && AccountAddsUp(account.value)
                && exists k :: 0 <= k < |positions| && Touched(positions[k], account.value, order)
    {
      if order.executionState != "PAPER_FILLED" {
        return Success(None);
      }
      var current := EnsureDefaultPaperAccount(now);
      var open := FindOpen(positions, order.symbol);
      var existing: Option<Position> := None;
      var existingId: Option<Id> := None;
      if open.Some? {
        existing := Some(positions[open.value]);
        existingId := Some(positions[open.value].id);
      }
      var fill := OrderFill(order, existingId, nextId, now);
      var freshId := nextId + 1;
      nextId := nextId + 2;
      var application := OpenPositionFromBuy(current, existing, fill, freshId);
      match application {
        case Failure(e) =>
          r := Failure(e);
        case Success(app) =>
          BuyValues(current, existing, fill, freshId);
          if open.Some? {
            positions := positions[open.value := app.position];
            assert Touched(positions[open.value], app.account, order);
          } else {
            positions := positions + [app.position];
            assert Touched(positions[|positions| - 1], app.account, order);
          }
          fills := UpsertFill(fills, fill.(positionId := Some(app.position.id)));
          account := Some(app.account);
          r := Success(account);
      }
    }

    method ClosePaperPosition(request: CloseRequest, ticks: map<string, MarkTick>, staleThreshold: nat, now: Time)
      returns (r: Result<CloseSummary, CloseError>)
      modifies this
      ensures r == CloseOutcome(old(State()), request, ticks, staleThreshold, now)
      ensures State() == AfterClose(old(State()), request, ticks, staleThreshold, now)
    {
      if !request.marketSimulated {
        return Failure(UnsupportedCloseMode);
      }
      var current := EnsureDefaultPaperAccount(now);
      var i := Ledger.Find(positions, request.positionId);
      if i.None? {
        return Failure(PositionNotFound);
      }
      var p := positions[i.value];
      if request.confirmationText != ExpectedConfirmation(p.symbol) {
        return Failure(WrongConfirmationText);
      }
      if p.status == Closed {
        var stored := StoredCloseSummary(State(), p);
        return if stored.Some? then Success(stored.value) else Failure(AlreadyClosed);
      }
      if p.symbol !in ticks {
        return Failure(MissingMarketPrice);
      }
      var tick := ticks[p.symbol];
      if StaleTick(tick, staleThreshold, now) && !request.allowStalePrice {
        return Failure(StaleMarketPrice);
      }
      var closing := ClosePositionMarketSimulated(current, p, Closing(p.id), nextId, tick.price, 0.0, 0.0, now);
      match closing {
        case Failure(e) =>
          r := Failure(Unexpected(e));
        case Success(done) =>
          if FindFill(fills, Closing(p.id)).Some? {
            return Failure(DuplicateClosingOrder);
          }
          positions := positions[i.value := done.applied.position.(orderId := Some(Closing(p.id)))];
          account := Some(done.applied.account);
          fills := fills + [done.fill];
          closedJournal := closedJournal + {p.id};
          nextId := nextId + 1;
          r := Success(CloseSummary(false, p.id, p.symbol, p.quantity, p.entryPrice, tick.price, done.realizedPnl,
                                    0.0, 0.0, Some(now), done.fill.id));
      }
    }

    /** Rewrites the rows of the given positions, one by one. */
    method UpsertRows(rows: seq<Position>)
      requires DistinctIds(positions) && DistinctIds(rows)
      modifies this`positions
      ensures positions == Written(old(positions), rows)
    {
      ghost var before := positions;
      assert Written(before, rows[..0]) == before;
      for k := 0 to |rows|
        invariant positions == Written(before, rows[..k])
      {
        NotWrittenYet(rows, k);
        WrittenExtends(before, rows, k);
        WrittenKeepsIds(before, rows[..k]);
        var i := Ledger.Find(positions, rows[k].id);
        if i.Some? {
          positions := positions[i.value := rows[k]];
        }
      }
      assert rows[..|rows|] == rows;
    }

    /** Marks the open positions and rewrites their rows and the account, with nothing in between. */
    method MarkToMarket(prices: seq<MarkPriceInput>, at: Time)
      requires DistinctIds(positions)
      modifies this
      ensures State() == AfterMark(old(State()), prices, at)
    {
      var current := EnsureDefaultPaperAccount(at);
      var open := OpenRows(positions);
      var rows, summary, missing := MarkPositionsToMarket(current, open, prices, at);
      assert rows == MarkedRows(open, prices, at);
      OpenRowsAreDistinct(positions);
      UpsertRows(rows);
      account := Some(WithSummary(current, summary, at));
    }
  }

  lemma {:induction false} OpenRowsAreDistinct(positions: seq<Position>)
    requires DistinctIds(positions)
    ensures forall p :: p in OpenRows(positions) ==> p in positions && p.status == Open
    ensures DistinctIds(OpenRows(positions))
    decreases |positions|
  {
    if positions != [] {
      var k := |positions| - 1;
      OpenRowsAreDistinct(positions[..k]);
      var before := OpenRows(positions[..k]);
      forall a | 0 <= a < |before|
        ensures before[a].id != positions[k].id
      {
        assert before[a] in positions[..k];
      }
    }
  }

  lemma NotWrittenYet(rows: seq<Position>, k: nat)
    requires k < |rows| && DistinctIds(rows)
    ensures Ledger.Find(rows[..k], rows[k].id).None?
  {
  }

  lemma WrittenKeepsIds(positions: seq<Position>, rows: seq<Position>)
    ensures forall id :: Ledger.Find(Written(positions, rows), id) == Ledger.Find(positions, id)
  {
    forall id
      ensures Ledger.Find(Written(positions, rows), id) == Ledger.Find(positions, id)
    {
      FindById(Written(positions, rows), positions, id);
    }
  }

  lemma {:induction false} FindById(some: seq<Position>, other: seq<Position>, id: Id)
    requires |some| == |other| && forall i :: 0 <= i < |some| ==> some[i].id == other[i].id
    ensures Ledger.Find(some, id) == Ledger.Find(other, id)
    decreases |some|
  {
    if some != [] {
      FindById(some[..|some| - 1], other[..|other| - 1], id);
    }
  }
}
