/**
 * What the stored-summary query may answer when a position is closed again. It orders the fills of the position by
 * date alone, so of equally late ones it may return any.
 */
module RepeatedCloses {
  import opened Wrappers
  import opened Accounting
  import opened PaperBook
  import opened PaperBookRuns
  import Ledger
  import PositionLaws

  ghost predicate MayReport(fills: seq<Fill>, id: Id, fill: Fill) {
    && fill in fills && fill.positionId == Some(id)
    && (forall f :: f in fills && f.positionId == Some(id) ==> f.filledAt <= fill.filledAt)
  }

  ghost predicate AllBefore(fills: seq<Fill>, id: Id, at: Time) {
    forall f :: f in fills && f.positionId == Some(id) ==> f.filledAt < at
  }

  /** Every answer the query may give is the summary of the first close. */
  ghost predicate AlwaysReports(t: Tables, position: Position, first: CloseSummary) {
    forall fill :: MayReport(t.fills, position.id, fill) ==>
      SummaryFrom(position, fill) == first.(alreadyClosed := true)
  }

  ghost predicate ClosesNow(t: Tables, request: CloseRequest, ticks: map<string, MarkTick>, staleThreshold: nat,
                            now: Time) {
    var outcome := CloseOutcome(t, request, ticks, staleThreshold, now);
    outcome.Success? && !outcome.value.alreadyClosed
  }

  /** A closing appends one fill dated now, and the position it closed describes it. */
  lemma ClosingAppendsItsFill(t: Tables, request: CloseRequest, ticks: map<string, MarkTick>, staleThreshold: nat,
                              now: Time)
    requires Inv(t) && ClosesNow(t, request, ticks, staleThreshold, now)
    ensures var first := CloseOutcome(t, request, ticks, staleThreshold, now).value;
            var next := AfterClose(t, request, ticks, staleThreshold, now);
            var k := Ledger.Find(next.positions, request.positionId);
            && k.Some? && next.positions[k.value].id == request.positionId
            && |next.fills| == |t.fills| + 1 && next.fills[..|t.fills|] == t.fills
            && var closing := next.fills[|t.fills|];
               && closing.positionId == Some(request.positionId) && closing.filledAt == now
               && closing.id == first.fillId && closing.id >= t.nextId
               && SummaryFrom(next.positions[k.value], closing) == first.(alreadyClosed := true)
  {
    hide AfterClose, CloseOutcome;
    CloseKeepsInv(t, request, ticks, staleThreshold, now);
    CloseStep(t, request, ticks, staleThreshold, now);
    var next := AfterClose(t, request, ticks, staleThreshold, now);
    var k := Ledger.Find(EnsureAccount(t, now).positions, request.positionId).value;
    assert Ledger.Find(next.positions, request.positionId) == Some(k);
  }

  /**
   * A repeated close is sure to report the first one exactly when every other fill of the position is dated strictly
   * before it.
   */
  lemma SureToReportFirstIff(t: Tables, request: CloseRequest, ticks: map<string, MarkTick>, staleThreshold: nat,
                             now: Time)
    requires Inv(t) && ClosesNow(t, request, ticks, staleThreshold, now)
    ensures var first := CloseOutcome(t, request, ticks, staleThreshold, now).value;
            var next := AfterClose(t, request, ticks, staleThreshold, now);
            var k := Ledger.Find(next.positions, request.positionId);
            && k.Some?
            && (AlwaysReports(next, next.positions[k.value], first) <==> AllBefore(t.fills, request.positionId, now))
  {
    hide AfterClose, CloseOutcome, SummaryFrom;
    ClosingAppendsItsFill(t, request, ticks, staleThreshold, now);
    var id := request.positionId;
    var first := CloseOutcome(t, request, ticks, staleThreshold, now).value;
    var next := AfterClose(t, request, ticks, staleThreshold, now);
    var p := next.positions[Ledger.Find(next.positions, id).value];
    var closing := next.fills[|t.fills|];
    assert next.fills == t.fills + [closing];
    if !AllBefore(t.fills, id, now) {
      LatestFillIsLatest(t.fills, id);
      var late := LatestFill(t.fills, id).value;
      assert late.filledAt >= now && late.id < t.nextId;
      assert MayReport(next.fills, id, late);
      SummaryNamesFill(p, late);
      assert SummaryFrom(p, late).fillId != first.fillId;
    }
  }

  lemma SummaryNamesFill(position: Position, fill: Fill)
    ensures SummaryFrom(position, fill).fillId == fill.id
  {
  }

  /** Once it is, it is so for ever, whatever is filled and closed later. */
  lemma SureToReportFirstForever(t: Tables, request: CloseRequest, ticks: map<string, MarkTick>, staleThreshold: nat,
                                 now: Time, later: seq<Op>)
    requires Inv(t) && ClosesNow(t, request, ticks, staleThreshold, now)
    requires AllBefore(t.fills, request.positionId, now)
    ensures var first := CloseOutcome(t, request, ticks, staleThreshold, now).value;
            var end := RunOps(AfterClose(t, request, ticks, staleThreshold, now), later);
            var k := Ledger.Find(end.positions, request.positionId);
            k.Some? && AlwaysReports(end, end.positions[k.value], first)
  {
    hide AfterClose, CloseOutcome, RunOps, SummaryFrom;
    ClosingAppendsItsFill(t, request, ticks, staleThreshold, now);
    CloseKeepsInv(t, request, ticks, staleThreshold, now);
    CloseStep(t, request, ticks, staleThreshold, now);
    var id := request.positionId;
    var next := AfterClose(t, request, ticks, staleThreshold, now);
    var closing := next.fills[|t.fills|];
    assert forall j :: 0 <= j < |t.fills| ==> next.fills[j] == t.fills[j];
    assert ClosingFillLatest(next.fills, id, closing, |t.fills|, now - 1);
    RunKeepsInv(next, later);
    ClosedPositionsAreFrozen(next, later);
    RunKeepsClosingFill(next, later, id, closing, |t.fills|, now - 1);
    var end := RunOps(next, later);
    var k := Ledger.Find(next.positions, id).value;
    assert end.positions[k] == next.positions[k];
    assert Ledger.Find(end.positions, id) == Some(k);
    OnlyTheClosing(end.fills, id, closing, |t.fills|, now - 1);
  }

  lemma OnlyTheClosing(fills: seq<Fill>, id: Id, closing: Fill, k: nat, until: Time)
    requires ClosingFillLatest(fills, id, closing, k, until) && until < closing.filledAt
    ensures forall fill :: MayReport(fills, id, fill) ==> fill == closing
  {
    assert closing in fills;
  }

  /** The fill this model picks is one the query may pick. */
  lemma ModelAnswerIsAllowed(fills: seq<Fill>, id: Id)
    requires LatestFill(fills, id).Some?
    ensures MayReport(fills, id, LatestFill(fills, id).value)
  {
    LatestFillIsLatest(fills, id);
  }

  // ---------------------------------------------------------------------------------------------
  // With a clock that never steps back

  function OpTime(op: Op): Time {
    match op
    case OrderFilled(_, now) => now
    case CloseRequested(_, _, _, now) => now
    case Marked(_, at) => at
  }

  /** Operations come in the order of their times, and an order is filled no later than it is accounted. */
  predicate Clocked(ops: seq<Op>) {
    && (forall j, k :: 0 <= j <= k < |ops| ==> OpTime(ops[j]) <= OpTime(ops[k]))
    && (forall k :: 0 <= k < |ops| && ops[k].OrderFilled? ==> ops[k].order.filledAt.GetOr(ops[k].now) <= ops[k].now)
  }

  ghost predicate FilledBy(fills: seq<Fill>, at: Time) { forall k :: 0 <= k < |fills| ==> fills[k].filledAt <= at }

  lemma OrderFillsByNow(t: Tables, order: Order, now: Time)
    requires FilledBy(t.fills, now) && order.filledAt.GetOr(now) <= now
    ensures FilledBy(AfterOrder(t, order, now).fills, now)
  {
    hide OpenPositionFromBuy, FillPrice, UpsertFill;
    forall fill: Fill | fill.filledAt <= now
      ensures FilledBy(UpsertFill(t.fills, fill), now)
    {
      UpsertFilledBy(t.fills, fill, now);
    }
  }

  lemma UpsertFilledBy(fills: seq<Fill>, fill: Fill, at: Time)
    requires FilledBy(fills, at) && fill.filledAt <= at
    ensures FilledBy(UpsertFill(fills, fill), at)
  {
  }

  lemma CloseFillsByNow(t: Tables, request: CloseRequest, ticks: map<string, MarkTick>, staleThreshold: nat, now: Time)
    requires FilledBy(t.fills, now)
    ensures FilledBy(AfterClose(t, request, ticks, staleThreshold, now).fills, now)
  {
    hide AfterClose, CloseOutcome;
    CloseStep(t, request, ticks, staleThreshold, now);
    var next := AfterClose(t, request, ticks, staleThreshold, now);
    if next.fills != t.fills {
      assert next.fills == t.fills + [next.fills[|t.fills|]];
    }
  }

  lemma {:induction false} ClockedFills(ops: seq<Op>, at: Time)
    requires Clocked(ops) && forall k :: 0 <= k < |ops| ==> OpTime(ops[k]) <= at
    ensures FilledBy(RunOps(EMPTY_TABLES, ops).fills, at)
    decreases |ops|
  {
    hide AfterOrder, AfterClose, AfterMark, FilledBy;
    NothingFilled(at);
    if ops != [] {
      var before, last := ops[..|ops| - 1], ops[|ops| - 1];
      var t := RunOps(EMPTY_TABLES, before);
      ClockedFills(before, OpTime(last));
      match last {
        case OrderFilled(order, now) => OrderFillsByNow(t, order, now);
        case CloseRequested(request, ticks, staleThreshold, now) =>
          CloseFillsByNow(t, request, ticks, staleThreshold, now);
        case Marked(prices, markedAt) => MarkKeepsFills(t, prices, markedAt);
      }
      FilledLater(RunOps(EMPTY_TABLES, ops).fills, OpTime(last), at);
    }
  }

  lemma NothingFilled(at: Time)
    ensures FilledBy([], at)
  {
  }

  lemma FilledLater(fills: seq<Fill>, at: Time, later: Time)
    requires FilledBy(fills, at) && at <= later
    ensures FilledBy(fills, later)
  {
  }

  /**
   * As long as the clock never steps back, a repeated close always reports the first one, after any later operations;
   * when it moves on before the close, whichever fill the query picks among equally late ones.
   */
  lemma FirstCloseIsReported(ops: seq<Op>, request: CloseRequest, ticks: map<string, MarkTick>, staleThreshold: nat,
                             now: Time, later: seq<Op>)
    requires Clocked(ops) && forall k :: 0 <= k < |ops| ==> OpTime(ops[k]) <= now
    requires ClosesNow(RunOps(EMPTY_TABLES, ops), request, ticks, staleThreshold, now)
    ensures var t := RunOps(EMPTY_TABLES, ops);
            var first := CloseOutcome(t, request, ticks, staleThreshold, now).value;
            var end := RunOps(AfterClose(t, request, ticks, staleThreshold, now), later);
            var k := Ledger.Find(end.positions, request.positionId);
            && k.Some?
            && StoredCloseSummary(end, end.positions[k.value]) == Some(first.(alreadyClosed := true))
            && ((forall j :: 0 <= j < |ops| ==> OpTime(ops[j]) < now) ==>
                  AlwaysReports(end, end.positions[k.value], first))
  {
    hide AfterClose, CloseOutcome, RunOps, Inv, StoredCloseSummary, AlwaysReports, Clocked;
    var t := RunOps(EMPTY_TABLES, ops);
    RunKeepsInv(EMPTY_TABLES, ops);
    ClockedFills(ops, now);
    RepeatedCloseReportsFirstForever(t, request, ticks, staleThreshold, now, later);
    if forall j :: 0 <= j < |ops| ==> OpTime(ops[j]) < now {
      ClockedFills(ops, now - 1);
      SureToReportFirstForever(t, request, ticks, staleThreshold, now, later);
    }
  }

  // ---------------------------------------------------------------------------------------------
  // A late fill

  function LateOrder(symbol: string, price: real, filledAt: Time): Order {
    Order(7, "PAPER_FILLED", symbol, 1.0, 1.0, Some(price), None, None, Some(filledAt))
  }

  lemma OneBuy(symbol: string, price: real, filledAt: Time, now: Time)
    ensures var t := RunOps(EMPTY_TABLES, [OrderFilled(LateOrder(symbol, price, filledAt), now)]);
            && t.account.Some? && t.nextId == 3
            && |t.positions| == 1 && t.positions[0].id == 2 && t.positions[0].symbol == symbol
            && t.positions[0].status == Open && t.positions[0].quantity == 1.0 && t.positions[0].entryPrice == price
            && t.fills == [Fill(1, Placed(7), Some(2), symbol, price, 1.0, price * 1.0, 0.0, 0.0, filledAt)]
  {
    var order := LateOrder(symbol, price, filledAt);
    assert [OrderFilled(order, now)][..0] == [];
    assert RunOps(EMPTY_TABLES, []) == EMPTY_TABLES;
    assert RunOps(EMPTY_TABLES, [OrderFilled(order, now)]) == AfterOrder(EMPTY_TABLES, order, now);
  }

  lemma LaterOfTwo(buy: Fill, closing: Fill, id: Id)
    requires buy.positionId == closing.positionId == Some(id) && buy.filledAt > closing.filledAt
    ensures LatestFill([buy, closing], id) == Some(buy)
  {
    assert [buy, closing][..1] == [buy] && [buy][..0] == [];
    assert LatestFill([], id).None?;
    assert LatestFill([buy], id) == Some(buy);
  }

  /** The one open position of a book closes at a current positive price. */
  lemma OnlyPositionCloses(t: Tables, request: CloseRequest, exit: real, now: Time)
    requires t.account.Some? && |t.positions| == 1 && t.positions[0].status == Open && t.positions[0].quantity > 0.0
    requires request.positionId == t.positions[0].id && request.marketSimulated && exit > 0.0
    requires request.confirmationText == ExpectedConfirmation(t.positions[0].symbol)
    requires FindFill(t.fills, Closing(t.positions[0].id)).None?
    ensures var ticks := map[t.positions[0].symbol := MarkTick(exit, now)];
            var outcome := CloseOutcome(t, request, ticks, 0, now);
            outcome.Success? && !outcome.value.alreadyClosed && outcome.value.exitPrice == exit
  {
    hide ExpectedConfirmation;
    assert t.positions[..0] == [];
    var p := t.positions[0];
    PositionLaws.MarketCloseOutcome(t.account.value, p, Closing(p.id), t.nextId, exit, 0.0, 0.0, now);
  }

  /**
   * A buy dated after the close of its position: the repeated close reports the buy as the closing fill and its price
   * as the exit price. Both dates are clock readings, the buy's the earlier one, so this takes a clock that steps back,
   * or two hosts whose clocks differ.
   */
  lemma LateFillIsReportedAsTheExit(symbol: string, price: real, exit: real, filledAt: Time, now: Time)
    requires exit > 0.0 && filledAt > now
    ensures var ops := [OrderFilled(LateOrder(symbol, price, filledAt), now)];
            var t := RunOps(EMPTY_TABLES, ops);
            var request := CloseRequest(2, ExpectedConfirmation(symbol), true, false);
            var ticks := map[symbol := MarkTick(exit, now)];
            var first := CloseOutcome(t, request, ticks, 0, now);
            var next := AfterClose(t, request, ticks, 0, now);
            var again := CloseOutcome(next, request, ticks, 0, now);
            && first.Success? && !first.value.alreadyClosed && first.value.exitPrice == exit
            && again.Success? && again.value.alreadyClosed && again.value.exitPrice == price
            && again.value.fillId == 1 != first.value.fillId
  {
    hide ExpectedConfirmation, RunOps, AfterClose, CloseOutcome;
    var ops := [OrderFilled(LateOrder(symbol, price, filledAt), now)];
    var t := RunOps(EMPTY_TABLES, ops);
    var request := CloseRequest(2, ExpectedConfirmation(symbol), true, false);
    var ticks := map[symbol := MarkTick(exit, now)];
    OneBuy(symbol, price, filledAt, now);
    OnlyPositionCloses(t, request, exit, now);
    RunKeepsInv(EMPTY_TABLES, ops);
    ClosingAppendsItsFill(t, request, ticks, 0, now);
    CloseStep(t, request, ticks, 0, now);
    var next := AfterClose(t, request, ticks, 0, now);
    assert next.fills == [t.fills[0], next.fills[1]];
    LaterOfTwo(t.fills[0], next.fills[1], 2);
    StoredAnswer(next, request, ticks, now);
  }

  /** Closing a closed position answers with its stored summary. */
  lemma StoredAnswer(t: Tables, request: CloseRequest, ticks: map<string, MarkTick>, now: Time)
    requires t.account.Some? && request.marketSimulated
    requires var k := Ledger.Find(t.positions, request.positionId);
             && k.Some? && t.positions[k.value].status == Closed && request.positionId in t.closedJournal
             && t.positions[k.value].id == request.positionId
             && request.confirmationText == ExpectedConfirmation(t.positions[k.value].symbol)
    requires LatestFill(t.fills, request.positionId).Some?
    ensures var k := Ledger.Find(t.positions, request.positionId).value;
            CloseOutcome(t, request, ticks, 0, now)
            == Success(SummaryFrom(t.positions[k], LatestFill(t.fills, request.positionId).value))
  {
  }
}
