/** A close as the operator sees it, and the rows a fill leaves, without the functions the tables are written in. */
module PaperInWords {
  import opened Wrappers
  import opened Accounting
  import opened PaperBook
  import PaperBookRuns
  import PositionLaws
  import Ledger
  import Text
  import Market

  // ---------------------------------------------------------------------------------------------
  // The confirmation

  /** `CLOSE`, a blank, and the symbol in its normal form. */
  ghost predicate Confirms(text: string, symbol: string) {
    && |text| >= 6 && text[..6] == "CLOSE "
    && if Market.Blank(symbol) then |text| == 6 else Market.NormalFormOf(text[6..], symbol)
  }

  lemma ConfirmationInWords(text: string, symbol: string)
    ensures text == ExpectedConfirmation(symbol) <==> Confirms(text, symbol)
  {
    hide Market.NormalFormOf, Market.Blank, Text.Trim;
    var normal := Text.ToAsciiUpper(Text.Trim(symbol));
    Market.NewSymbolIsNormalForm(symbol);
    Market.BlankTextIsEmpty(symbol);
    assert ExpectedConfirmation(symbol)[..6] == "CLOSE " && ExpectedConfirmation(symbol)[6..] == normal;
    if Confirms(text, symbol) {
      assert text == text[..6] + text[6..];
      if !Market.Blank(symbol) {
        Market.NormalFormIsUnique(text[6..], normal, symbol);
      }
    }
  }

  // ---------------------------------------------------------------------------------------------
  // The close

  ghost predicate FirstWithId(positions: seq<Position>, k: nat, id: Id) {
    k < |positions| && positions[k].id == id && forall j :: 0 <= j < k ==> positions[j].id != id
  }

  lemma FirstIsFound(positions: seq<Position>, k: nat, id: Id)
    requires FirstWithId(positions, k, id)
    ensures Ledger.Find(positions, id) == Some(k)
  {
  }

  /** Only simulated closes of stored positions go on; neither refusal looks at anything else. */
  lemma UnknownCloseRefused(t: Tables, request: CloseRequest, ticks: map<string, MarkTick>, staleThreshold: nat,
                            now: Time)
    ensures var r := CloseOutcome(t, request, ticks, staleThreshold, now);
            && (r == Failure(UnsupportedCloseMode) <==> !request.marketSimulated)
            && (r == Failure(PositionNotFound) <==>
                  && request.marketSimulated
                  && forall k :: 0 <= k < |t.positions| ==> t.positions[k].id != request.positionId)
  {
    hide Ledger.Find, StoredCloseSummary, ClosePositionMarketSimulated, FindFill, ExpectedConfirmation;
  }

  ghost predicate HasFill(fills: seq<Fill>, id: Id) { exists k :: 0 <= k < |fills| && fills[k].positionId == Some(id) }

  lemma {:induction false} LatestFillIff(fills: seq<Fill>, id: Id)
    ensures LatestFill(fills, id).Some? <==> HasFill(fills, id)
    decreases |fills|
  {
    if fills != [] {
      var before, last := fills[..|fills| - 1], fills[|fills| - 1];
      LatestFillIff(before, id);
      if HasFill(before, id) {
        var k :| 0 <= k < |before| && before[k].positionId == Some(id);
        assert fills[k].positionId == Some(id);
      }
      assert last.positionId == Some(id) ==> HasFill(fills, id);
    }
  }

  ghost predicate HasOrderFill(fills: seq<Fill>, orderId: OrderId) {
    exists k :: 0 <= k < |fills| && fills[k].orderId == orderId
  }

  /** What a close of an open position at this price does: a refusal, or the whole of it sold. */
  ghost predicate Sells(r: Result<CloseSummary, CloseError>, t: Tables, p: Position, price: real, now: Time) {
    if p.quantity <= 0.0 then r == Failure(Unexpected(CloseQuantityNotWhole))
    else if price <= 0.0 then r == Failure(Unexpected(ExitPriceNotPositive))
    else if HasOrderFill(t.fills, Closing(p.id)) then r == Failure(DuplicateClosingOrder)
    else
      && r.Success?
      && r.value == CloseSummary(false, p.id, p.symbol, p.quantity, p.entryPrice, price, r.value.realizedPnl, 0.0, 0.0,
                                 Some(now), r.value.fillId)
      && r.value.realizedPnl + p.entryPrice * p.quantity == price * p.quantity
      && r.value.fillId >= t.nextId
  }

  /**
   * The answer to every close request for a stored position: the text must confirm it; a closed position answers with
   * what is stored about its close; an open one needs a price, one no older than the threshold unless the request
   * takes any.
   */
  lemma CloseInWords(t: Tables, request: CloseRequest, ticks: map<string, MarkTick>, staleThreshold: nat, now: Time,
                     k: nat)
    requires request.marketSimulated && FirstWithId(t.positions, k, request.positionId)
    ensures var p := t.positions[k];
            var r := CloseOutcome(t, request, ticks, staleThreshold, now);
            if !Confirms(request.confirmationText, p.symbol) then r == Failure(WrongConfirmationText)
            else if p.status == Closed then
              if p.id in t.closedJournal && HasFill(t.fills, p.id) then r.Success? && r.value.alreadyClosed
              else r == Failure(AlreadyClosed)
            else if p.symbol !in ticks then r == Failure(MissingMarketPrice)
            else if now > ticks[p.symbol].receivedAt + staleThreshold && !request.allowStalePrice then
              r == Failure(StaleMarketPrice)
            else Sells(r, t, p, ticks[p.symbol].price, now)
  {
    hide Ledger.Find, LatestFill, ExpectedConfirmation, Confirms, FindFill, ClosePositionMarketSimulated, FirstWithId,
         HasFill, HasOrderFill;
    var t1 := EnsureAccount(t, now);
    FirstIsFound(t.positions, k, request.positionId);
    FirstExists(t.positions, k, request.positionId);
    var p := t.positions[k];
    ConfirmationInWords(request.confirmationText, p.symbol);
    LatestFillIff(t.fills, p.id);
    ClosingFillIff(t.fills, Closing(p.id));
    if p.status == Open && p.symbol in ticks {
      var price := ticks[p.symbol].price;
      PositionLaws.MarketCloseOutcome(t1.account.value, p, Closing(p.id), t1.nextId, price, 0.0, 0.0, now);
    }
  }

  lemma FirstExists(positions: seq<Position>, k: nat, id: Id)
    requires FirstWithId(positions, k, id)
    ensures k < |positions| && positions[k].id == id
  {
  }

  lemma ClosingFillIff(fills: seq<Fill>, orderId: OrderId)
    ensures FindFill(fills, orderId).Some? <==> HasOrderFill(fills, orderId)
  {
  }

  // ---------------------------------------------------------------------------------------------
  // The rows a fill leaves

  /** The default account starts at a million, with nothing gained. */
  lemma DefaultAccountInWords(t: Tables, now: Time)
    ensures var next := EnsureAccount(t, now);
            && next.account.Some? && next.positions == t.positions && next.fills == t.fills
            && next.closedJournal == t.closedJournal
            && (t.account.Some? ==> next == t)
            && (t.account.None? ==>
                  && next.account == Some(Account(t.nextId, 1000000.0, 1000000.0, 0.0, 0.0, now))
                  && next.nextId > t.nextId)
  {
  }

  /** An order has one fill: another for it changes nothing of the stored one but its position. */
  lemma FillIsStoredOnce(fills: seq<Fill>, fill: Fill)
    ensures var next := UpsertFill(fills, fill);
            && (!HasOrderFill(fills, fill.orderId) ==> next == fills + [fill])
            && (HasOrderFill(fills, fill.orderId) ==>
                  && |next| == |fills|
                  && exists k :: 0 <= k < |fills| && fills[k].orderId == fill.orderId
                                 && next == fills[k := fills[k].(positionId := fill.positionId)])
  {
    hide FindFill;
  }
}
