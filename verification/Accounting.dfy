/** Paper accounting: fills, closes, mark to market and account rebuild. */
module Accounting {
  import opened Wrappers
  import opened Sums
  import opened Positions

  type Id = nat
  type Time = int

  /** Orders placed by callers, and the one order a closing transaction writes for its position. */
  datatype OrderId = Placed(id: Id) | Closing(positionId: Id)

  datatype PriceStatus = Live | Stale | Missing

  datatype PositionStatus = Open | Closed

  datatype Account = Account(
    id: Id,
    initialEquity: real,
    currentEquity: real,
    realizedPnl: real,
    unrealizedPnl: real,
    updatedAt: Time)

  /** The only side is Long, so the side column is left implicit. */
  datatype Position = Position(
    id: Id,
    accountId: Id,
    symbol: string,
    quantity: real,
    entryPrice: real,
    markPrice: Option<real>,
    priceStatus: PriceStatus,
    notional: real,
    realizedPnl: real,
    unrealizedPnl: real,
    status: PositionStatus,
    openedAt: Time,
    closedAt: Option<Time>,
    orderId: Option<OrderId>,
    updatedAt: Time)

  datatype Fill = Fill(
    id: Id,
    orderId: OrderId,
    positionId: Option<Id>,
    symbol: string,
    price: real,
    quantity: real,
    notional: real,
    fee: real,
    slippageCost: real,
    filledAt: Time)
  {
    function TradeCost(): real { fee + slippageCost }
  }

  datatype PnlSummary = PnlSummary(
    realizedPnl: real,
    unrealizedPnl: real,
    equity: real,
    peakEquity: real,
    drawdownPct: real,
    priceStatus: PriceStatus)

  datatype MarkPriceInput = MarkPriceInput(symbol: string, markPrice: Option<real>, priceStatus: PriceStatus)

  datatype FillApplication = FillApplication(account: Account, position: Position, summary: PnlSummary)

  datatype CloseApplication = CloseApplication(account: Account, position: Position, summary: PnlSummary)

  datatype MarketClose = MarketClose(applied: CloseApplication, fill: Fill, realizedPnl: real)

  datatype AccountingError =
    | FillQuantityNotPositive
    | PositionQuantityNotPositive
    | CloseQuantityOutOfRange
    | PositionNotOpen
    | CloseQuantityNotWhole
    | ExitPriceNotPositive
    | NegativeCloseCost

  function ComputeDrawdown(currentEquity: real, peakEquity: real): real {
    if peakEquity <= 0.0 || currentEquity >= peakEquity then 0.0
    else (peakEquity - currentEquity) / peakEquity
  }

  function RebuildAccountSummary(initialEquity: real, realizedPnl: real, unrealizedPnl: real): PnlSummary {
    var equity := initialEquity + realizedPnl + unrealizedPnl;
    var peakEquity := if equity > initialEquity then equity else initialEquity;
    PnlSummary(realizedPnl, unrealizedPnl, equity, peakEquity, ComputeDrawdown(equity, peakEquity),
               if unrealizedPnl == 0.0 then Missing else Live)
  }

  /** The drawdown is the share of the peak that is missing, and the peak is the better of the two equities. */
  lemma DrawdownIsTheShareBelowPeak(initialEquity: real, realizedPnl: real, unrealizedPnl: real)
    ensures var s := RebuildAccountSummary(initialEquity, realizedPnl, unrealizedPnl);
            && s.peakEquity >= initialEquity && s.peakEquity >= s.equity
            && (s.peakEquity == initialEquity || s.peakEquity == s.equity)
            && s.drawdownPct >= 0.0
            && (s.peakEquity > 0.0 ==> s.equity == s.peakEquity * (1.0 - s.drawdownPct))
            && (s.drawdownPct == 0.0 <==> s.peakEquity <= 0.0 || s.equity >= initialEquity)
            && s.equity - realizedPnl - unrealizedPnl == initialEquity
            && s.priceStatus != Stale && (s.priceStatus == Live <==> unrealizedPnl != 0.0)
  {
  }

  function WithSummary(account: Account, summary: PnlSummary, at: Time): Account {
    account.(currentEquity := summary.equity,
             realizedPnl := summary.realizedPnl,
             unrealizedPnl := summary.unrealizedPnl,
             updatedAt := at)
  }

  function ComputeUnrealizedPnl(entryPrice: real, markPrice: Option<real>, quantity: real): real {
    match markPrice
    case None => 0.0
    case Some(mark) => (mark - entryPrice) * quantity
  }

  function ComputeRealizedPnl(entryPrice: real, exitPrice: real, quantity: real, feesAndSlippage: real): real {
    (exitPrice - entryPrice) * quantity - feesAndSlippage
  }

  /** `freshId` stands for the generated identifier of a position the fill does not name. */
  function OpenPositionFromBuy(account: Account, existing: Option<Position>, fill: Fill, freshId: Id)
    : Result<FillApplication, AccountingError>
  {
    var tradeCost := fill.TradeCost();
    if fill.quantity <= 0.0 then Failure(FillQuantityNotPositive)
    else if existing.Some? && existing.value.quantity + fill.quantity <= 0.0 then
      Failure(PositionQuantityNotPositive)
    else
      var position :=
        match existing
        case Some(current) =>
          var newQuantity := current.quantity + fill.quantity;
          var entryPrice := (current.entryPrice * current.quantity + fill.notional + tradeCost) / newQuantity;
          current.(quantity := newQuantity,
                   entryPrice := entryPrice,
                   notional := entryPrice * newQuantity,
                   unrealizedPnl := ComputeUnrealizedPnl(entryPrice, current.markPrice, newQuantity),
                   status := Open,
                   closedAt := None,
                   orderId := Some(fill.orderId),
                   updatedAt := fill.filledAt)
        case None =>
          Position(fill.positionId.GetOr(freshId), account.id, fill.symbol, fill.quantity,
                   (fill.notional + tradeCost) / fill.quantity, None, Missing, fill.notional + tradeCost,
                   0.0, 0.0, Open, fill.filledAt, None, Some(fill.orderId), fill.filledAt);
      var summary :=
        RebuildAccountSummary(account.initialEquity, account.realizedPnl - tradeCost, position.unrealizedPnl);
      Success(FillApplication(WithSummary(account, summary, fill.filledAt), position, summary))
  }

  function ClosePosition(account: Account, position: Position, exitPrice: real, quantity: real, closedAt: Time,
                         feesAndSlippage: real): Result<CloseApplication, AccountingError>
  {
    if quantity <= 0.0 || quantity > position.quantity then Failure(CloseQuantityOutOfRange)
    else
      var realizedPnl := ComputeRealizedPnl(position.entryPrice, exitPrice, quantity, feesAndSlippage);
      var remaining := position.quantity - quantity;
      var closed := remaining == 0.0;
      var updated :=
        position.(quantity := remaining,
                  markPrice := Some(exitPrice),
                  priceStatus := Live,
                  realizedPnl := position.realizedPnl + realizedPnl,
                  unrealizedPnl :=
                    if closed then 0.0
                    else ComputeUnrealizedPnl(position.entryPrice, Some(exitPrice), remaining),
                  status := if closed then Closed else Open,
                  closedAt := if closed then Some(closedAt) else None,
                  updatedAt := closedAt);
      var summary :=
        RebuildAccountSummary(account.initialEquity, account.realizedPnl + realizedPnl, updated.unrealizedPnl);
      Success(CloseApplication(WithSummary(account, summary, closedAt), updated, summary))
  }

  function ComputeRealizedPnlForClose(position: Position, exitPrice: real, quantity: real, fee: real,
                                      slippageCost: real): Result<real, AccountingError>
  {
    if position.status != Open then Failure(PositionNotOpen)
    else if quantity <= 0.0 || quantity != position.quantity then Failure(CloseQuantityNotWhole)
    else if exitPrice <= 0.0 then Failure(ExitPriceNotPositive)
    else if fee < 0.0 || slippageCost < 0.0 then Failure(NegativeCloseCost)
    else Success(ComputeRealizedPnl(position.entryPrice, exitPrice, quantity, fee + slippageCost))
  }

  function CreateClosingPaperFill(position: Position, orderId: OrderId, fillId: Id, exitPrice: real, fee: real,
                                  slippageCost: real, filledAt: Time): Result<Fill, AccountingError>
  {
    if position.status != Open then Failure(PositionNotOpen)
    else Success(Fill(fillId, orderId, Some(position.id), position.symbol, exitPrice, position.quantity,
                      exitPrice * position.quantity, fee, slippageCost, filledAt))
  }

  function ClosePositionMarketSimulated(account: Account, position: Position, orderId: OrderId, fillId: Id,
                                        exitPrice: real, fee: real, slippageCost: real, closedAt: Time)
    : Result<MarketClose, AccountingError>
  {
    match CreateClosingPaperFill(position, orderId, fillId, exitPrice, fee, slippageCost, closedAt)
    case Failure(e) => Failure(e)
    case Success(fill) =>
      match ComputeRealizedPnlForClose(position, exitPrice, position.quantity, fee, slippageCost)
      case Failure(e) => Failure(e)
      case Success(realized) =>
        match ClosePosition(account, position, exitPrice, position.quantity, closedAt, fee + slippageCost)
        case Failure(e) => Failure(e)
        case Success(applied) => Success(MarketClose(applied, fill, realized))
  }

  // ---------------------------------------------------------------------------------------------
  // What positions and account say they are worth

  /** Carried cost and unrealized PnL add up to the quantity at its mark; an unmarked position has gained nothing. */
  ghost predicate RowValued(p: Position) {
    match p.markPrice
    case None => p.unrealizedPnl == 0.0
    case Some(mark) => p.unrealizedPnl + p.entryPrice * p.quantity == mark * p.quantity
  }

  ghost predicate AccountAddsUp(a: Account) {
    a.currentEquity == a.initialEquity + a.realizedPnl + a.unrealizedPnl
  }

  lemma Distribute(mark: real, entry: real, quantity: real)
    ensures (mark - entry) * quantity + entry * quantity == mark * quantity
  {
  }

  lemma CostPerUnit(cost: real, quantity: real)
    requires quantity != 0.0
    ensures cost / quantity * quantity == cost
  {
  }

  /**
   * The whole of what a buy leaves: the position at its old mark, valued at it, and an account whose unrealized PnL is
   * that of this position alone.
   */
  lemma BuyValues(account: Account, existing: Option<Position>, fill: Fill, freshId: Id)
    requires OpenPositionFromBuy(account, existing, fill, freshId).Success?
    ensures var r := OpenPositionFromBuy(account, existing, fill, freshId).value;
            && RowValued(r.position) && AccountAddsUp(r.account)
            && r.account.unrealizedPnl == r.position.unrealizedPnl
            && r.account == account.(currentEquity := r.account.currentEquity, realizedPnl := r.account.realizedPnl,
                                     unrealizedPnl := r.account.unrealizedPnl, updatedAt := fill.filledAt)
            && r.position.notional == r.position.entryPrice * r.position.quantity
            && r.position.status == Open && r.position.closedAt == None
            && r.position.orderId == Some(fill.orderId) && r.position.updatedAt == fill.filledAt
            && match existing
               case Some(p) =>
                 && r.position.id == p.id && r.position.symbol == p.symbol && r.position.accountId == p.accountId
                 && r.position.markPrice == p.markPrice && r.position.priceStatus == p.priceStatus
                 && r.position.realizedPnl == p.realizedPnl && r.position.openedAt == p.openedAt
               case None =>
                 && r.position.id == (if fill.positionId.Some? then fill.positionId.value else freshId)
                 && r.position.symbol == fill.symbol && r.position.accountId == account.id
                 && r.position.markPrice == None && r.position.priceStatus == Missing
                 && r.position.realizedPnl == 0.0 && r.position.openedAt == fill.filledAt
    ensures var r := OpenPositionFromBuy(account, existing, fill, freshId).value;
            var held := if existing.Some? then existing.value.quantity else 0.0;
            var paid := if existing.Some? then existing.value.entryPrice * existing.value.quantity else 0.0;
            && r.position.quantity == held + fill.quantity
            && r.position.entryPrice * r.position.quantity == paid + fill.notional + fill.fee + fill.slippageCost
            && r.account.realizedPnl + fill.fee + fill.slippageCost == account.realizedPnl
            && r.summary.equity == r.account.currentEquity && r.summary.realizedPnl == r.account.realizedPnl
            && r.summary.unrealizedPnl == r.account.unrealizedPnl
  {
    var p := OpenPositionFromBuy(account, existing, fill, freshId).value.position;
    if existing.Some? {
      CostPerUnit(existing.value.entryPrice * existing.value.quantity + fill.notional + fill.TradeCost(), p.quantity);
    } else {
      CostPerUnit(fill.notional + fill.TradeCost(), fill.quantity);
    }
    if p.markPrice.Some? {
      Distribute(p.markPrice.value, p.entryPrice, p.quantity);
    }
  }

  /** The same of a close: what remains is valued at the exit price, and nothing remains of a full one. */
  lemma CloseValues(account: Account, position: Position, exitPrice: real, quantity: real, closedAt: Time, fees: real)
    requires ClosePosition(account, position, exitPrice, quantity, closedAt, fees).Success?
    ensures var r := ClosePosition(account, position, exitPrice, quantity, closedAt, fees).value;
            && RowValued(r.position) && AccountAddsUp(r.account)
            && r.account.unrealizedPnl == r.position.unrealizedPnl
            && r.account == account.(currentEquity := r.account.currentEquity, realizedPnl := r.account.realizedPnl,
                                     unrealizedPnl := r.account.unrealizedPnl, updatedAt := closedAt)
            && r.position.quantity + quantity == position.quantity
            && r.position.realizedPnl - position.realizedPnl == r.account.realizedPnl - account.realizedPnl
            && r.position.unrealizedPnl + r.position.entryPrice * r.position.quantity
               == exitPrice * r.position.quantity
            && (r.position.status == Closed <==> r.position.quantity == 0.0)
            && r.position.closedAt == (if r.position.quantity == 0.0 then Some(closedAt) else None)
            && r.position == position.(quantity := r.position.quantity, markPrice := Some(exitPrice),
                                       priceStatus := Live, realizedPnl := r.position.realizedPnl,
                                       unrealizedPnl := r.position.unrealizedPnl, status := r.position.status,
                                       closedAt := r.position.closedAt, updatedAt := closedAt)
    ensures var r := ClosePosition(account, position, exitPrice, quantity, closedAt, fees).value;
            && r.summary.equity == r.account.currentEquity && r.summary.realizedPnl == r.account.realizedPnl
            && r.summary.unrealizedPnl == r.account.unrealizedPnl
  {
    var p := ClosePosition(account, position, exitPrice, quantity, closedAt, fees).value.position;
    Distribute(exitPrice, p.entryPrice, p.quantity);
  }

  // ---------------------------------------------------------------------------------------------
  // Mark to market

  function FindPrice(prices: seq<MarkPriceInput>, symbol: string): Option<MarkPriceInput> {
    if prices == [] then None
    else if prices[0].symbol == symbol then Some(prices[0])
    else FindPrice(prices[1..], symbol)
  }

  /** The mark a position is valued at, when its symbol is listed with a price. */
  function MarkOf(position: Position, prices: seq<MarkPriceInput>): Option<real> {
    match FindPrice(prices, position.symbol)
    case None => None
    case Some(price) => price.markPrice
  }

  function MarkedPosition(position: Position, prices: seq<MarkPriceInput>, at: Time): Position {
    var mark := MarkOf(position, prices);
    var listed := FindPrice(prices, position.symbol);
    position.(markPrice := mark,
              priceStatus := if listed.Some? then listed.value.priceStatus else Missing,
              unrealizedPnl := ComputeUnrealizedPnl(position.entryPrice, mark, position.quantity),
              updatedAt := at)
  }

  /** Marking changes what a position is worth and nothing else. */
  lemma MarkValues(position: Position, prices: seq<MarkPriceInput>, at: Time)
    ensures var p := MarkedPosition(position, prices, at);
            && RowValued(p) && p.markPrice == MarkOf(position, prices)
            && p == position.(markPrice := p.markPrice, priceStatus := p.priceStatus, unrealizedPnl := p.unrealizedPnl,
                              updatedAt := at)
  {
    var p := MarkedPosition(position, prices, at);
    if p.markPrice.Some? {
      Distribute(p.markPrice.value, p.entryPrice, p.quantity);
    }
  }

  /** A position takes price and status from the first listed price of its symbol, and is missing one without. */
  lemma {:induction false} MarkIsFirstListed(position: Position, prices: seq<MarkPriceInput>, at: Time)
    ensures var p := MarkedPosition(position, prices, at);
            if exists k :: 0 <= k < |prices| && prices[k].symbol == position.symbol then
              exists k :: 0 <= k < |prices| && prices[k].symbol == position.symbol
                          && (forall j :: 0 <= j < k ==> prices[j].symbol != position.symbol)
                          && p.markPrice == prices[k].markPrice && p.priceStatus == prices[k].priceStatus
            else p.markPrice == None && p.priceStatus == Missing
    decreases |prices|
  {
    if prices != [] {
      if prices[0].symbol == position.symbol {
        assert prices[0].symbol == position.symbol;
      } else {
        MarkIsFirstListed(position, prices[1..], at);
        ListedLater(position.symbol, prices);
      }
    }
  }

  lemma ListedLater(symbol: string, prices: seq<MarkPriceInput>)
    requires prices != [] && prices[0].symbol != symbol
    ensures forall k :: 0 < k < |prices| ==> prices[k] == prices[1..][k - 1]
    ensures forall k :: 0 <= k < |prices| - 1 ==> prices[1..][k] == prices[k + 1]
  {
  }

  function UnrealizedAt(prices: seq<MarkPriceInput>): Position -> real {
    (p: Position) => ComputeUnrealizedPnl(p.entryPrice, MarkOf(p, prices), p.quantity)
  }

  function MissingSymbols(positions: seq<Position>, prices: seq<MarkPriceInput>): seq<string> {
    if positions == [] then []
    else
      var last := positions[|positions| - 1];
      MissingSymbols(positions[..|positions| - 1], prices)
      + (if MarkOf(last, prices).None? then [last.symbol] else [])
  }

  ghost predicate UnmarkedAt(positions: seq<Position>, prices: seq<MarkPriceInput>, at: seq<nat>) {
    forall k :: 0 <= k < |positions| ==> (k in at <==> MarkOf(positions[k], prices).None?)
  }

  lemma UnmarkedAtExtends(positions: seq<Position>, prices: seq<MarkPriceInput>, before: seq<nat>)
    requires positions != [] && Increasing(before, |positions| - 1)
    requires UnmarkedAt(positions[..|positions| - 1], prices, before)
    ensures var n := |positions| - 1;
            UnmarkedAt(positions, prices, if MarkOf(positions[n], prices).None? then before + [n] else before)
  {
    hide MarkOf;
    var n := |positions| - 1;
    IncreasingExtends(before, n);
    assert forall k :: 0 <= k < n ==> positions[k] == positions[..n][k];
  }

  /** The missing symbols are those of the positions a marking leaves without a mark, in their order. */
  lemma {:induction false} MissingInOrder(positions: seq<Position>, prices: seq<MarkPriceInput>) returns (at: seq<nat>)
    ensures Increasing(at, |positions|) && UnmarkedAt(positions, prices, at)
    ensures |at| == |MissingSymbols(positions, prices)|
    ensures forall i :: 0 <= i < |at| ==> MissingSymbols(positions, prices)[i] == positions[at[i]].symbol
    decreases |positions|
  {
    hide Increasing, UnmarkedAt, MarkOf;
    NothingUnmarked(prices);
    at := [];
    if positions != [] {
      var n := |positions| - 1;
      var before := MissingInOrder(positions[..n], prices);
      IncreasingExtends(before, n);
      UnmarkedAtExtends(positions, prices, before);
      at := if MarkOf(positions[n], prices).None? then before + [n] else before;
    }
  }

  lemma NothingUnmarked(prices: seq<MarkPriceInput>)
    ensures Increasing([], 0) && UnmarkedAt([], prices, [])
  {
  }

  function MarkedSummary(account: Account, positions: seq<Position>, prices: seq<MarkPriceInput>): PnlSummary {
    RebuildAccountSummary(account.initialEquity, account.realizedPnl, SumOf(positions, UnrealizedAt(prices)))
  }

  method FindPriceInput(prices: seq<MarkPriceInput>, symbol: string) returns (found: Option<MarkPriceInput>)
    ensures found == FindPrice(prices, symbol)
  {
    var i := 0;
    while i < |prices|
      invariant 0 <= i <= |prices|
      invariant FindPrice(prices, symbol) == FindPrice(prices[i..], symbol)
    {
      if prices[i].symbol == symbol {
        return Some(prices[i]);
      }
      assert prices[i..][1..] == prices[i + 1..];
      i := i + 1;
    }
    found := None;
  }

  /** Marks every position, keeping order, and totals the unrealized PnL of all of them. */
  method MarkPositionsToMarket(account: Account, positions: seq<Position>, prices: seq<MarkPriceInput>, at: Time)
    returns (updated: seq<Position>, summary: PnlSummary, missing: seq<string>)
    ensures |updated| == |positions|
    ensures forall i :: 0 <= i < |positions| ==> updated[i] == MarkedPosition(positions[i], prices, at)
    ensures summary == MarkedSummary(account, positions, prices)
    ensures missing == MissingSymbols(positions, prices)
  {
    updated := [];
    missing := [];
    var unrealized := 0.0;
    for k := 0 to |positions|
      invariant |updated| == k
      invariant forall i :: 0 <= i < k ==> updated[i] == MarkedPosition(positions[i], prices, at)
      invariant unrealized == SumOf(positions[..k], UnrealizedAt(prices))
      invariant missing == MissingSymbols(positions[..k], prices)
    {
      var position := positions[k];
      var price := FindPriceInput(prices, position.symbol);
      var marked: Position;
      if price.Some? {
        if price.value.markPrice.None? {
          missing := missing + [position.symbol];
        }
        marked := position.(markPrice := price.value.markPrice,
                            priceStatus := price.value.priceStatus,
                            unrealizedPnl := ComputeUnrealizedPnl(position.entryPrice, price.value.markPrice,
                                                                  position.quantity),
                            updatedAt := at);
      } else {
        missing := missing + [position.symbol];
        marked := position.(markPrice := None, priceStatus := Missing, unrealizedPnl := 0.0, updatedAt := at);
      }
      unrealized := unrealized + marked.unrealizedPnl;
      updated := updated + [marked];
      assert positions[..k + 1][..k] == positions[..k];
    }
    assert positions[..|positions|] == positions;
    summary := RebuildAccountSummary(account.initialEquity, account.realizedPnl, unrealized);
  }
}
