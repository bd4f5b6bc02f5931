/**
 * The ledger law: what any interleaving of buys and closes, on any number of positions, does to the account.
 * A buy that names no stored position opens one; a rejected event changes nothing.
 */
module Ledger {
  import opened Wrappers
  import opened Sums
  import opened Accounting

  datatype Book = Book(account: Account, positions: seq<Position>)

  datatype Event =
    | Buy(positionId: Id, fill: Fill)
    | Close(positionId: Id, exitPrice: real, quantity: real, fees: real, at: Time)

  /** What the accepted events of a history moved: kept outside the account, position by position or in all. */
  datatype Flows = Flows(closeProceeds: real, closeFees: real, buySpend: real, buyCost: real) {
    function Plus(other: Flows): Flows {
      Flows(closeProceeds + other.closeProceeds, closeFees + other.closeFees,
            buySpend + other.buySpend, buyCost + other.buyCost)
    }

    /** Cash that came in less cash that went out, with buy costs counted once. */
    function Net(): real { closeProceeds - closeFees - buySpend }
  }

  const NO_FLOWS := Flows(0.0, 0.0, 0.0, 0.0)

  function Find(positions: seq<Position>, id: Id): (i: Option<nat>)
    ensures i.Some? ==> i.value < |positions| && positions[i.value].id == id
    ensures i.None? <==> forall k :: 0 <= k < |positions| ==> positions[k].id != id
    ensures i.Some? ==> forall k :: 0 <= k < i.value ==> positions[k].id != id
  {
    if positions == [] then None
    else
      var earlier := Find(positions[..|positions| - 1], id);
      if earlier.Some? then earlier
      else if positions[|positions| - 1].id == id then Some(|positions| - 1)
      else None
  }

  function Accepts(book: Book, event: Event): bool {
    var i := Find(book.positions, event.positionId);
    match event
    case Buy(_, fill) =>
      fill.quantity > 0.0 && (i.Some? ==> book.positions[i.value].quantity + fill.quantity > 0.0)
    case Close(_, _, quantity, _, _) =>
      i.Some? && 0.0 < quantity <= book.positions[i.value].quantity
  }

  function Step(book: Book, event: Event): Book {
    var i := Find(book.positions, event.positionId);
    match event
    case Buy(id, fill) =>
      if i.Some? then
        match OpenPositionFromBuy(book.account, Some(book.positions[i.value]), fill, id)
        case Failure(_) => book
        case Success(app) => Book(app.account, book.positions[i.value := app.position])
      else
        (match OpenPositionFromBuy(book.account, None, fill.(positionId := Some(id)), id)
         case Failure(_) => book
         case Success(app) => Book(app.account, book.positions + [app.position]))
    case Close(_, exitPrice, quantity, fees, at) =>
      if i.None? then book
      else
        match ClosePosition(book.account, book.positions[i.value], exitPrice, quantity, at, fees)
        case Failure(_) => book
        case Success(app) => Book(app.account, book.positions[i.value := app.position])
  }

  function Run(book: Book, events: seq<Event>): Book {
    if events == [] then book
    else Step(Run(book, events[..|events| - 1]), events[|events| - 1])
  }

  function EventFlows(book: Book, event: Event): Flows {
    if !Accepts(book, event) then NO_FLOWS
    else
      match event
      case Buy(_, fill) => Flows(0.0, 0.0, fill.notional + fill.TradeCost(), fill.TradeCost())
      case Close(_, exitPrice, quantity, fees, _) => Flows(exitPrice * quantity, fees, 0.0, 0.0)
  }

  function TotalFlows(book: Book, events: seq<Event>): Flows {
    if events == [] then NO_FLOWS
    else
      var before := events[..|events| - 1];
      TotalFlows(book, before).Plus(EventFlows(Run(book, before), events[|events| - 1]))
  }

  /** The flows of the events that name one position. */
  function PositionFlows(book: Book, events: seq<Event>, id: Id): Flows {
    if events == [] then NO_FLOWS
    else
      var before, last := events[..|events| - 1], events[|events| - 1];
      var flows := PositionFlows(book, before, id);
      if last.positionId == id then flows.Plus(EventFlows(Run(book, before), last)) else flows
  }

  const CARRIED_COST: Position -> real := (p: Position) => p.entryPrice * p.quantity

  const POSITION_REALIZED: Position -> real := (p: Position) => p.realizedPnl

  function MarkValue(prices: seq<MarkPriceInput>): Position -> real {
    (p: Position) => var mark := MarkOf(p, prices); if mark.Some? then mark.value * p.quantity else 0.0
  }

  function UnpricedCost(prices: seq<MarkPriceInput>): Position -> real {
    (p: Position) => if MarkOf(p, prices).Some? then 0.0 else p.entryPrice * p.quantity
  }

  ghost predicate Fresh(book: Book) {
    book.positions == [] && book.account.realizedPnl == 0.0
  }

  /** What one accepted buy does to the position, and that it books its cost against the account a second time. */
  lemma BuyEffect(account: Account, existing: Option<Position>, fill: Fill, freshId: Id)
    requires fill.quantity > 0.0
    requires existing.Some? ==> existing.value.quantity + fill.quantity > 0.0
    ensures var r := OpenPositionFromBuy(account, existing, fill, freshId);
            var priorCost := if existing.Some? then existing.value.entryPrice * existing.value.quantity else 0.0;
            && r.Success?
            && r.value.position.quantity == (if existing.Some? then existing.value.quantity else 0.0) + fill.quantity
            && r.value.position.entryPrice * r.value.position.quantity
                 == priorCost + fill.notional + fill.TradeCost()
            && r.value.position.notional == r.value.position.entryPrice * r.value.position.quantity
            && r.value.position.realizedPnl == (if existing.Some? then existing.value.realizedPnl else 0.0)
            && r.value.account.realizedPnl == account.realizedPnl - fill.TradeCost()
            && r.value.account.initialEquity == account.initialEquity
  {
    var quantity := (if existing.Some? then existing.value.quantity else 0.0) + fill.quantity;
    var priorCost := if existing.Some? then existing.value.entryPrice * existing.value.quantity else 0.0;
    DivideThenMultiply(priorCost + fill.notional + fill.TradeCost(), quantity);
  }

  lemma DivideThenMultiply(x: real, y: real)
    requires y != 0.0
    ensures (x / y) * y == x
  {
  }

  lemma CloseEffect(account: Account, position: Position, exitPrice: real, quantity: real, at: Time, fees: real)
    requires 0.0 < quantity <= position.quantity
    ensures var r := ClosePosition(account, position, exitPrice, quantity, at, fees);
            var p := r.value.position;
            && r.Success?
            && p.id == position.id && p.entryPrice == position.entryPrice
            && p.entryPrice * p.quantity == position.entryPrice * position.quantity - position.entryPrice * quantity
            && p.realizedPnl - position.realizedPnl
                 == exitPrice * quantity - position.entryPrice * quantity - fees
                 == r.value.account.realizedPnl - account.realizedPnl
            && r.value.account.initialEquity == account.initialEquity
  {
    var p := ClosePosition(account, position, exitPrice, quantity, at, fees).value.position;
    assert p.entryPrice * (position.quantity - quantity)
           == p.entryPrice * position.quantity - p.entryPrice * quantity;
    assert (exitPrice - position.entryPrice) * quantity == exitPrice * quantity - position.entryPrice * quantity;
  }

  /** An event is rejected exactly when it is not acceptable, and then the book is unchanged. */
  lemma RejectedEventChangesNothing(book: Book, event: Event)
    ensures !Accepts(book, event) ==> Step(book, event) == book
  {
  }

  /** The two balances the law tracks: realized PnL against carried cost, and against the positions' own PnL. */
  function CostBalance(book: Book): real {
    book.account.realizedPnl - SumOf(book.positions, CARRIED_COST)
  }

  function RealizedBalance(book: Book): real {
    book.account.realizedPnl - SumOf(book.positions, POSITION_REALIZED)
  }

  lemma ReplaceBalances(book: Book, i: nat, account: Account, p: Position)
    requires i < |book.positions|
    ensures var next := Book(account, book.positions[i := p]);
            var was := book.positions[i];
            && CostBalance(next) == CostBalance(book) + account.realizedPnl - book.account.realizedPnl
                                    + was.entryPrice * was.quantity - p.entryPrice * p.quantity
            && RealizedBalance(next) == RealizedBalance(book) + account.realizedPnl - book.account.realizedPnl
                                        + was.realizedPnl - p.realizedPnl
  {
    SumUpdate(book.positions, i, p, CARRIED_COST);
    SumUpdate(book.positions, i, p, POSITION_REALIZED);
  }

  lemma AppendBalances(book: Book, account: Account, p: Position)
    ensures var next := Book(account, book.positions + [p]);
            && CostBalance(next) == CostBalance(book) + account.realizedPnl - book.account.realizedPnl
                                    - p.entryPrice * p.quantity
            && RealizedBalance(next) == RealizedBalance(book) + account.realizedPnl - book.account.realizedPnl
                                        - p.realizedPnl
  {
    SumAppend(book.positions, p, CARRIED_COST);
    SumAppend(book.positions, p, POSITION_REALIZED);
  }

  lemma StepFlows(book: Book, event: Event)
    ensures var next := Step(book, event);
            var flows := EventFlows(book, event);
            && next.account.initialEquity == book.account.initialEquity
            && CostBalance(next) == CostBalance(book) + flows.Net() - flows.buyCost
            && RealizedBalance(next) == RealizedBalance(book) - flows.buyCost
  {
    if Accepts(book, event) {
      match event {
        case Buy(_, _) => BuyFlows(book, event);
        case Close(_, _, _, _, _) => CloseFlows(book, event);
      }
    } else {
      RejectedEventChangesNothing(book, event);
    }
  }

  lemma BuyFlows(book: Book, event: Event)
    requires event.Buy? && Accepts(book, event)
    ensures var next := Step(book, event);
            var flows := EventFlows(book, event);
            && next.account.initialEquity == book.account.initialEquity
            && CostBalance(next) == CostBalance(book) + flows.Net() - flows.buyCost
            && RealizedBalance(next) == RealizedBalance(book) - flows.buyCost
  {
    if Find(book.positions, event.positionId).Some? {
      AddToPosition(book, Find(book.positions, event.positionId).value, event.fill, event.positionId);
    } else {
      OpenNewPosition(book, event.fill.(positionId := Some(event.positionId)), event.positionId);
    }
  }

  lemma AddToPosition(book: Book, i: nat, fill: Fill, freshId: Id)
    requires i < |book.positions| && fill.quantity > 0.0 && book.positions[i].quantity + fill.quantity > 0.0
    ensures var r := OpenPositionFromBuy(book.account, Some(book.positions[i]), fill, freshId);
            && r.Success?
            && var next := Book(r.value.account, book.positions[i := r.value.position]);
            && next.account.initialEquity == book.account.initialEquity
            && CostBalance(next) == CostBalance(book) - fill.notional - fill.TradeCost() - fill.TradeCost()
            && RealizedBalance(next) == RealizedBalance(book) - fill.TradeCost()
  {
    hide OpenPositionFromBuy, CostBalance, RealizedBalance;
    BuyEffect(book.account, Some(book.positions[i]), fill, freshId);
    var app := OpenPositionFromBuy(book.account, Some(book.positions[i]), fill, freshId).value;
    ReplaceBalances(book, i, app.account, app.position);
  }

  lemma OpenNewPosition(book: Book, fill: Fill, freshId: Id)
    requires fill.quantity > 0.0
    ensures var r := OpenPositionFromBuy(book.account, None, fill, freshId);
            && r.Success?
            && var next := Book(r.value.account, book.positions + [r.value.position]);
            && next.account.initialEquity == book.account.initialEquity
            && CostBalance(next) == CostBalance(book) - fill.notional - fill.TradeCost() - fill.TradeCost()
            && RealizedBalance(next) == RealizedBalance(book) - fill.TradeCost()
  {
    hide OpenPositionFromBuy, CostBalance, RealizedBalance;
    BuyEffect(book.account, None, fill, freshId);
    var app := OpenPositionFromBuy(book.account, None, fill, freshId).value;
    AppendBalances(book, app.account, app.position);
  }

  lemma CloseFlows(book: Book, event: Event)
    requires event.Close? && Accepts(book, event)
    ensures var next := Step(book, event);
            var flows := EventFlows(book, event);
            && next.account.initialEquity == book.account.initialEquity
            && CostBalance(next) == CostBalance(book) + flows.Net() - flows.buyCost
            && RealizedBalance(next) == RealizedBalance(book) - flows.buyCost
  {
    var i := Find(book.positions, event.positionId).value;
    CloseEffect(book.account, book.positions[i], event.exitPrice, event.quantity, event.at, event.fees);
    var app := ClosePosition(book.account, book.positions[i], event.exitPrice, event.quantity, event.at, event.fees).value;
    ReplaceBalances(book, i, app.account, app.position);
  }

  lemma {:induction false} RunFlows(book: Book, events: seq<Event>)
    ensures var end := Run(book, events);
            var flows := TotalFlows(book, events);
            && end.account.initialEquity == book.account.initialEquity
            && CostBalance(end) == CostBalance(book) + flows.Net() - flows.buyCost
            && RealizedBalance(end) == RealizedBalance(book) - flows.buyCost
    decreases |events|
  {
    if events != [] {
      var before := events[..|events| - 1];
      RunFlows(book, before);
      StepFlows(Run(book, before), events[|events| - 1]);
    }
  }

  /**
   * The ledger law. From a fresh account, marking the book after any history gives the initial equity, plus the
   * cash the accepted events moved, less every buy cost a second time, plus the priced positions at their marks
   * and the unpriced ones at their carried cost.
   */
  lemma LedgerLaw(book: Book, events: seq<Event>, prices: seq<MarkPriceInput>)
    requires Fresh(book)
    ensures var end := Run(book, events);
            var flows := TotalFlows(book, events);
            MarkedSummary(end.account, end.positions, prices).equity
            == book.account.initialEquity
               + flows.closeProceeds - flows.closeFees - flows.buySpend - flows.buyCost
               + SumOf(end.positions, MarkValue(prices)) + SumOf(end.positions, UnpricedCost(prices))
  {
    RunFlows(book, events);
    MarkedValueSplits(Run(book, events).positions, prices);
  }

  lemma {:induction false} MarkedValueSplits(positions: seq<Position>, prices: seq<MarkPriceInput>)
    ensures SumOf(positions, UnrealizedAt(prices)) + SumOf(positions, CARRIED_COST)
            == SumOf(positions, MarkValue(prices)) + SumOf(positions, UnpricedCost(prices))
    decreases |positions|
  {
    if positions != [] {
      var p := positions[|positions| - 1];
      var mark := MarkOf(p, prices);
      assert mark.Some? ==>
          (mark.value - p.entryPrice) * p.quantity == mark.value * p.quantity - p.entryPrice * p.quantity;
      MarkedValueSplits(positions[..|positions| - 1], prices);
    }
  }

  /** Cash is conserved, whatever the history and the prices, exactly when the accepted buys carried no cost in all. */
  lemma CashConservedIffNoBuyCost(book: Book, events: seq<Event>, prices: seq<MarkPriceInput>)
    requires Fresh(book)
    ensures var end := Run(book, events);
            var flows := TotalFlows(book, events);
            MarkedSummary(end.account, end.positions, prices).equity
              == book.account.initialEquity + flows.Net()
                 + SumOf(end.positions, MarkValue(prices)) + SumOf(end.positions, UnpricedCost(prices))
            <==> flows.buyCost == 0.0
  {
    LedgerLaw(book, events, prices);
  }

  /** The account's realized PnL is that of all its positions, less every buy cost. */
  lemma AccountRealizedIsPositionsLessBuyCost(book: Book, events: seq<Event>)
    requires Fresh(book)
    ensures var end := Run(book, events);
            end.account.realizedPnl == SumOf(end.positions, POSITION_REALIZED) - TotalFlows(book, events).buyCost
  {
    RunFlows(book, events);
  }

  /** One position's own law: what was spent on it, plus what it realized, is what it returned plus what it carries. */
  ghost predicate PositionBalanced(book: Book, id: Id, flows: Flows) {
    match Find(book.positions, id)
    case None => flows == NO_FLOWS
    case Some(i) =>
      var p := book.positions[i];
      flows.buySpend + p.realizedPnl == flows.closeProceeds - flows.closeFees + p.entryPrice * p.quantity
  }

  lemma {:induction false} PositionLaw(book: Book, events: seq<Event>, id: Id)
    requires Fresh(book)
    ensures PositionBalanced(Run(book, events), id, PositionFlows(book, events, id))
    decreases |events|
  {
    if events != [] {
      var before, last := events[..|events| - 1], events[|events| - 1];
      PositionLaw(book, before, id);
      StepBalances(Run(book, before), last, id, PositionFlows(book, before, id));
    }
  }

  lemma StepBalances(book: Book, event: Event, id: Id, flows: Flows)
    requires PositionBalanced(book, id, flows)
    ensures PositionBalanced(Step(book, event), id,
                             if event.positionId == id then flows.Plus(EventFlows(book, event)) else flows)
  {
    if event.positionId != id {
      StepKeepsOthers(book, event, id);
    } else if !Accepts(book, event) {
      RejectedEventChangesNothing(book, event);
    } else if event.Buy? {
      BuyBalancesNamed(book, event, flows);
    } else {
      CloseBalancesNamed(book, event, flows);
    }
  }

  /** Every event leaves every position it does not name in its place and as it was. */
  lemma StepKeepsOthers(book: Book, event: Event, id: Id)
    requires event.positionId != id
    ensures var next := Step(book, event);
            && Find(next.positions, id) == Find(book.positions, id)
            && (Find(book.positions, id).Some? ==>
                  var k := Find(book.positions, id).value;
                  next.positions[k] == book.positions[k])
  {
    var next := Step(book, event);
    FindStable(book.positions, next.positions, id);
  }

  lemma FindStable(before: seq<Position>, after: seq<Position>, id: Id)
    requires |before| <= |after|
    requires forall k :: 0 <= k < |before| ==> (before[k].id == id <==> after[k].id == id)
    requires forall k :: |before| <= k < |after| ==> after[k].id != id
    ensures Find(before, id) == Find(after, id)
  {
  }

  lemma BuyBalancesNamed(book: Book, event: Event, flows: Flows)
    requires event.Buy? && Accepts(book, event)
    requires PositionBalanced(book, event.positionId, flows)
    ensures PositionBalanced(Step(book, event), event.positionId, flows.Plus(EventFlows(book, event)))
  {
    var id := event.positionId;
    var i := Find(book.positions, id);
    if i.Some? {
      BuyEffect(book.account, Some(book.positions[i.value]), event.fill, id);
      var app := OpenPositionFromBuy(book.account, Some(book.positions[i.value]), event.fill, id).value;
      FindStable(book.positions, book.positions[i.value := app.position], id);
    } else {
      var named := event.fill.(positionId := Some(id));
      BuyEffect(book.account, None, named, id);
      var app := OpenPositionFromBuy(book.account, None, named, id).value;
      FindAppended(book.positions, app.position);
    }
  }

  lemma CloseBalancesNamed(book: Book, event: Event, flows: Flows)
    requires event.Close? && Accepts(book, event)
    requires PositionBalanced(book, event.positionId, flows)
    ensures PositionBalanced(Step(book, event), event.positionId, flows.Plus(EventFlows(book, event)))
  {
    var i := Find(book.positions, event.positionId).value;
    var p := book.positions[i];
    CloseEffect(book.account, p, event.exitPrice, event.quantity, event.at, event.fees);
    var app := ClosePosition(book.account, p, event.exitPrice, event.quantity, event.at, event.fees).value;
    FindStable(book.positions, book.positions[i := app.position], event.positionId);
    assert Step(book, event) == Book(app.account, book.positions[i := app.position]);
    assert EventFlows(book, event) == Flows(event.exitPrice * event.quantity, event.fees, 0.0, 0.0);
  }

  lemma FindAppended(positions: seq<Position>, p: Position)
    requires Find(positions, p.id).None?
    ensures Find(positions + [p], p.id) == Some(|positions|)
  {
  }

  /** A single buy with a fee of 100: at an unmoved market the account is down 200. */
  lemma BuyCostIsBookedTwice(account: Account, fill: Fill)
    requires account.realizedPnl == 0.0
    requires fill.quantity == 1.0 && fill.notional == 100000.0 && fill.fee == 100.0 && fill.slippageCost == 0.0
    ensures var end := Run(Book(account, []), [Buy(7, fill)]);
            var prices := [MarkPriceInput(fill.symbol, Some(100000.0), Live)];
            MarkedSummary(end.account, end.positions, prices).equity == account.initialEquity - 200.0
  {
    var book, event := Book(account, []), Buy(7, fill);
    var prices := [MarkPriceInput(fill.symbol, Some(100000.0), Live)];
    assert [event][..0] == [];
    assert Run(book, []) == book;
    var end := Run(book, [event]);
    assert end == Step(book, event);
    assert end.positions[..0] == [];
    assert MarkOf(end.positions[0], prices) == Some(100000.0);
    assert SumOf(end.positions, UnrealizedAt(prices)) == -100.0;
  }
}
