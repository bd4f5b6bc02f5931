/** What lists of buys and lists of closes do to one position. */
module PositionLaws {
  import opened Wrappers
  import opened Sums
  import opened Accounting
  import Ledger

  datatype Holding = Holding(account: Account, position: Option<Position>)

  const FILL_QUANTITY: Fill -> real := (f: Fill) => f.quantity

  /** Notional plus trade cost: what the fill took out of the account. */
  const FILL_SPEND: Fill -> real := (f: Fill) => f.notional + f.TradeCost()

  const FILL_COST: Fill -> real := (f: Fill) => f.TradeCost()

  function AllInPrice(fill: Fill): real
    requires fill.quantity > 0.0
  {
    (fill.notional + fill.TradeCost()) / fill.quantity
  }

  function BuyAll(start: Holding, fills: seq<Fill>, freshId: Id): Result<Holding, AccountingError> {
    if fills == [] then Success(start)
    else
      match BuyAll(start, fills[..|fills| - 1], freshId)
      case Failure(e) => Failure(e)
      case Success(h) =>
        match OpenPositionFromBuy(h.account, h.position, fills[|fills| - 1], freshId)
        case Failure(e) => Failure(e)
        case Success(app) => Success(Holding(app.account, Some(app.position)))
  }

  function HeldQuantity(h: Holding): real {
    if h.position.Some? then h.position.value.quantity else 0.0
  }

  function HeldCost(h: Holding): real {
    if h.position.Some? then h.position.value.entryPrice * h.position.value.quantity else 0.0
  }

  ghost predicate Buyable(start: Holding, fills: seq<Fill>) {
    && HeldQuantity(start) >= 0.0
    && forall f :: f in fills ==> f.quantity > 0.0
  }

  lemma {:induction false} BuysAccumulate(start: Holding, fills: seq<Fill>, freshId: Id)
    requires Buyable(start, fills)
    ensures var r := BuyAll(start, fills, freshId);
            && r.Success?
            && (fills != [] ==> r.value.position.Some? && HeldQuantity(r.value) > 0.0)
            && HeldQuantity(r.value) >= 0.0
            && HeldQuantity(r.value) == HeldQuantity(start) + SumOf(fills, FILL_QUANTITY)
            && HeldCost(r.value) == HeldCost(start) + SumOf(fills, FILL_SPEND)
            && r.value.account.realizedPnl == start.account.realizedPnl - SumOf(fills, FILL_COST)
    decreases |fills|
  {
    hide OpenPositionFromBuy;
    if fills != [] {
      var k := |fills| - 1;
      BuysAccumulate(start, fills[..k], freshId);
      var h := BuyAll(start, fills[..k], freshId).value;
      Ledger.BuyEffect(h.account, h.position, fills[k], freshId);
    }
  }

  /** The entry price after any list of buys is everything paid, costs included, over everything bought. */
  lemma EntryPriceIsWeightedAverage(start: Holding, fills: seq<Fill>, freshId: Id)
    requires Buyable(start, fills) && fills != []
    ensures var r := BuyAll(start, fills, freshId);
            && r.Success? && r.value.position.Some?
            && HeldQuantity(start) + SumOf(fills, FILL_QUANTITY) > 0.0
            && r.value.position.value.entryPrice
                 == (HeldCost(start) + SumOf(fills, FILL_SPEND)) / (HeldQuantity(start) + SumOf(fills, FILL_QUANTITY))
  {
    hide BuyAll;
    BuysAccumulate(start, fills, freshId);
    var p := BuyAll(start, fills, freshId).value.position.value;
    SolveForPrice(p.entryPrice, HeldQuantity(start) + SumOf(fills, FILL_QUANTITY),
                  HeldCost(start) + SumOf(fills, FILL_SPEND));
  }

  lemma SolveForPrice(price: real, quantity: real, cost: real)
    requires quantity != 0.0 && price * quantity == cost
    ensures price == cost / quantity
  {
  }

  /** Whatever bounds the starting entry price and every all-in fill price bounds the resulting entry price. */
  lemma EntryPriceStaysWithinFills(start: Holding, fills: seq<Fill>, freshId: Id, low: real, high: real)
    requires Buyable(start, fills) && fills != []
    requires forall f :: f in fills ==> low <= AllInPrice(f) <= high
    requires start.position.Some? ==> low <= start.position.value.entryPrice <= high
    ensures var r := BuyAll(start, fills, freshId);
            r.Success? && r.value.position.Some? && low <= r.value.position.value.entryPrice <= high
  {
    hide BuyAll, AllInPrice, Within, HeldCost;
    BuysAccumulate(start, fills, freshId);
    forall f | f in fills ensures f.quantity > 0.0 && Within(FILL_SPEND(f), FILL_QUANTITY(f), low, high) {
      AllInWithin(f, low, high);
    }
    SpendWithin(fills, low, high);
    StartWithin(start, low, high);
    AddWithin(HeldCost(start), HeldQuantity(start), SumOf(fills, FILL_SPEND), SumOf(fills, FILL_QUANTITY), low, high);
    EntryWithin(BuyAll(start, fills, freshId).value, low, high);
  }

  /** x is between low and high per unit of q. */
  predicate Within(x: real, q: real, low: real, high: real) {
    low * q <= x <= high * q
  }

  lemma AddWithin(x: real, q: real, y: real, r: real, low: real, high: real)
    requires Within(x, q, low, high) && Within(y, r, low, high)
    ensures Within(x + y, q + r, low, high)
  {
  }

  lemma AllInWithin(fill: Fill, low: real, high: real)
    requires fill.quantity > 0.0 && low <= AllInPrice(fill) <= high
    ensures Within(FILL_SPEND(fill), FILL_QUANTITY(fill), low, high)
  {
    Ledger.DivideThenMultiply(fill.notional + fill.TradeCost(), fill.quantity);
  }

  lemma StartWithin(start: Holding, low: real, high: real)
    requires HeldQuantity(start) >= 0.0
    requires start.position.Some? ==> low <= start.position.value.entryPrice <= high
    ensures Within(HeldCost(start), HeldQuantity(start), low, high)
  {
  }

  lemma EntryWithin(h: Holding, low: real, high: real)
    requires h.position.Some? && HeldQuantity(h) > 0.0
    requires Within(HeldCost(h), HeldQuantity(h), low, high)
    ensures low <= h.position.value.entryPrice <= high
  {
  }

  lemma {:induction false} SpendWithin(fills: seq<Fill>, low: real, high: real)
    requires forall f :: f in fills ==> Within(FILL_SPEND(f), FILL_QUANTITY(f), low, high)
    ensures Within(SumOf(fills, FILL_SPEND), SumOf(fills, FILL_QUANTITY), low, high)
    decreases |fills|
  {
    if fills != [] {
      var k := |fills| - 1;
      SpendWithin(fills[..k], low, high);
      AddWithin(SumOf(fills[..k], FILL_SPEND), SumOf(fills[..k], FILL_QUANTITY),
                FILL_SPEND(fills[k]), FILL_QUANTITY(fills[k]), low, high);
    }
  }

  /** The order in which the fills of a position arrive does not matter. */
  lemma BuyOrderDoesNotMatter(start: Holding, fills: seq<Fill>, others: seq<Fill>, freshId: Id)
    requires Buyable(start, fills) && fills != []
    requires multiset(fills) == multiset(others)
    ensures var r, s := BuyAll(start, fills, freshId), BuyAll(start, others, freshId);
            && r.Success? && s.Success? && r.value.position.Some? && s.value.position.Some?
            && r.value.position.value.entryPrice == s.value.position.value.entryPrice
            && r.value.position.value.quantity == s.value.position.value.quantity
            && r.value.account.realizedPnl == s.value.account.realizedPnl
  {
    forall f | f in others ensures f.quantity > 0.0 {
      assert f in multiset(fills);
    }
    assert |multiset(fills)| == |multiset(others)|;
    SumPermutation(fills, others, FILL_QUANTITY);
    SumPermutation(fills, others, FILL_SPEND);
    SumPermutation(fills, others, FILL_COST);
    BuysAccumulate(start, fills, freshId);
    BuysAccumulate(start, others, freshId);
    EntryPriceIsWeightedAverage(start, fills, freshId);
    EntryPriceIsWeightedAverage(start, others, freshId);
  }

  // ---------------------------------------------------------------------------------------------
  // Closing in parts

  /** One partial close, with its own closing time. */
  datatype Part = Part(quantity: real, fees: real, at: Time)

  const PART_QUANTITY: Part -> real := (p: Part) => p.quantity

  const PART_FEES: Part -> real := (p: Part) => p.fees

  function CloseInParts(account: Account, position: Position, exitPrice: real, parts: seq<Part>)
    : Result<CloseApplication, AccountingError>
    requires parts != []
  {
    var last := parts[|parts| - 1];
    if |parts| == 1 then ClosePosition(account, position, exitPrice, last.quantity, last.at, last.fees)
    else
      match CloseInParts(account, position, exitPrice, parts[..|parts| - 1])
      case Failure(e) => Failure(e)
      case Success(app) => ClosePosition(app.account, app.position, exitPrice, last.quantity, last.at, last.fees)
  }

  /**
   * Splitting a close changes nothing: the whole outcome, rejection included, is that of one close of the summed
   * quantity with the summed fees at the time of the last part, however far apart the parts are.
   */
  lemma {:induction false} SplitCloseIsOneClose(account: Account, position: Position, exitPrice: real,
                                                parts: seq<Part>)
    requires parts != [] && forall p :: p in parts ==> p.quantity > 0.0
    ensures CloseInParts(account, position, exitPrice, parts)
            == ClosePosition(account, position, exitPrice, SumOf(parts, PART_QUANTITY), parts[|parts| - 1].at,
                             SumOf(parts, PART_FEES))
    ensures SumOf(parts, PART_QUANTITY) > 0.0
    decreases |parts|
  {
    var k := |parts| - 1;
    if k == 0 {
      assert parts[..0] == [];
    } else {
      SplitCloseIsOneClose(account, position, exitPrice, parts[..k]);
      TwoClosesAreOne(account, position, exitPrice,
                      Part(SumOf(parts[..k], PART_QUANTITY), SumOf(parts[..k], PART_FEES), parts[k - 1].at), parts[k]);
    }
  }

  lemma TwoClosesAreOne(account: Account, position: Position, exitPrice: real, first: Part, second: Part)
    requires first.quantity > 0.0 && second.quantity > 0.0
    ensures var whole := ClosePosition(account, position, exitPrice, first.quantity + second.quantity, second.at,
                                       first.fees + second.fees);
            match ClosePosition(account, position, exitPrice, first.quantity, first.at, first.fees)
            case Failure(e) => whole == Failure(e)
            case Success(app) =>
              ClosePosition(app.account, app.position, exitPrice, second.quantity, second.at, second.fees) == whole
  {
    var margin := exitPrice - position.entryPrice;
    assert margin * (first.quantity + second.quantity) == margin * first.quantity + margin * second.quantity;
    var once := ClosePosition(account, position, exitPrice, first.quantity, first.at, first.fees);
    var whole := ClosePosition(account, position, exitPrice, first.quantity + second.quantity, second.at,
                               first.fees + second.fees);
    if once.Success? && whole.Success? {
      var twice := ClosePosition(once.value.account, once.value.position, exitPrice, second.quantity, second.at, second.fees);
      assert twice.Success?;
      assert twice.value.position.quantity == whole.value.position.quantity;
      assert twice.value.position.realizedPnl == whole.value.position.realizedPnl;
      assert twice.value.position.unrealizedPnl == whole.value.position.unrealizedPnl;
      assert twice.value.position == whole.value.position;
      assert twice.value.account == whole.value.account;
    }
  }

  /** A buy is refused exactly for a quantity, or a total, that is not positive. */
  lemma BuyRefusedIff(account: Account, existing: Option<Position>, fill: Fill, freshId: Id)
    ensures var r := OpenPositionFromBuy(account, existing, fill, freshId);
            && (r == Failure(FillQuantityNotPositive) <==> fill.quantity <= 0.0)
            && (r == Failure(PositionQuantityNotPositive) <==>
                  fill.quantity > 0.0 && existing.Some? && existing.value.quantity + fill.quantity <= 0.0)
            && (r.Failure? ==> r.error in {FillQuantityNotPositive, PositionQuantityNotPositive})
  {
  }

  /** A close is refused exactly for a quantity that is not positive or not there. */
  lemma CloseRefusedIff(account: Account, position: Position, exitPrice: real, quantity: real, at: Time, fees: real)
    ensures var r := ClosePosition(account, position, exitPrice, quantity, at, fees);
            && (r.Success? <==> 0.0 < quantity <= position.quantity)
            && (r.Failure? ==> r.error == CloseQuantityOutOfRange)
  {
  }

  /**
   * A simulated market close succeeds exactly on an open, non-empty position at a positive price with non-negative
   * costs, and names the first of these that fails; it empties and closes the position, stores one fill of all of it,
   * and the PnL it reports is what both position and account gained.
   */
  lemma MarketCloseOutcome(account: Account, position: Position, orderId: OrderId, fillId: Id, exitPrice: real, fee: real,
                           slippageCost: real, at: Time)
    ensures var r := ClosePositionMarketSimulated(account, position, orderId, fillId, exitPrice, fee, slippageCost, at);
            && (r.Success? <==> position.status == Open && position.quantity > 0.0 && exitPrice > 0.0
                                && fee >= 0.0 && slippageCost >= 0.0)
            && (r.Failure? ==>
                  r.error == if position.status != Open then PositionNotOpen
                             else if position.quantity <= 0.0 then CloseQuantityNotWhole
                             else if exitPrice <= 0.0 then ExitPriceNotPositive
                             else NegativeCloseCost)
            && (r.Success? ==>
                  && r.value.fill == Fill(fillId, orderId, Some(position.id), position.symbol, exitPrice,
                                          position.quantity, r.value.fill.notional, fee, slippageCost, at)
                  && r.value.fill.notional == exitPrice * position.quantity
                  && r.value.applied.position.quantity == 0.0
                  && r.value.applied.position.status == Closed
                  && r.value.applied.position.closedAt == Some(at)
                  && r.value.applied.position.realizedPnl == position.realizedPnl + r.value.realizedPnl
                  && r.value.applied.account.realizedPnl == account.realizedPnl + r.value.realizedPnl
                  && r.value.realizedPnl + fee + slippageCost + position.entryPrice * position.quantity
                       == r.value.fill.notional)
  {
    assert (exitPrice - position.entryPrice) * position.quantity
           == exitPrice * position.quantity - position.entryPrice * position.quantity;
  }
}
