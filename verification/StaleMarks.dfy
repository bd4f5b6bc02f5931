/**
 * Marking a book that changed since it was read. The rows of the account and of the positions that were open then are
 * written back whole, whatever was filled or closed in between.
 */
module StaleMarks {
  import opened Wrappers
  import opened Accounting
  import opened PaperBook
  import opened PaperBookRuns
  import PositionLaws
  import RepeatedCloses
  import Ledger

  /** A position without what marking is meant to change. */
  function Core(p: Position): Position {
    p.(markPrice := None, priceStatus := Missing, unrealizedPnl := 0.0, updatedAt := 0)
  }

  /** Nothing that was traded is changed: neither realized PnL nor any position, its marks aside. */
  ghost predicate Keeps(t: Tables, next: Tables) {
    && t.account.Some? && next.account.Some? && next.account.value.realizedPnl == t.account.value.realizedPnl
    && |next.positions| == |t.positions|
    && (forall i :: 0 <= i < |t.positions| ==> Core(next.positions[i]) == Core(t.positions[i]))
  }

  /** What was read is still what is stored, as far as it will be written back. */
  ghost predicate Current(t: Tables, read: Tables) {
    && t.account.Some? && read.account.Some? && t.account.value.realizedPnl == read.account.value.realizedPnl
    && (forall i :: 0 <= i < |t.positions| ==> CurrentRow(t.positions[i], read))
  }

  ghost predicate CurrentRow(p: Position, read: Tables) {
    var open := OpenIn(read.positions, p.id);
    open.Some? ==> Core(open.value) == Core(p)
  }

  lemma MarkedCore(p: Position, prices: seq<MarkPriceInput>, at: Time)
    ensures Core(MarkedPosition(p, prices, at)) == Core(p)
    ensures MarkedPosition(p, prices, at).status == p.status && MarkedPosition(p, prices, at).id == p.id
  {
  }

  lemma WrittenCore(t: Tables, read: Tables, prices: seq<MarkPriceInput>, at: Time, i: nat)
    requires DistinctIds(read.positions) && read.account.Some? && i < |t.positions|
    ensures var p := AfterMarkWrite(t, read, prices, at).positions[i];
            var open := OpenIn(read.positions, t.positions[i].id);
            && Core(p) == Core(if open.Some? then open.value else t.positions[i])
            && p.status == (if open.Some? then Open else t.positions[i].status)
            && p.id == t.positions[i].id
  {
    hide Core, MarkedPosition;
    WrittenAt(t.positions, read.positions, prices, at, i);
    var open := OpenIn(read.positions, t.positions[i].id);
    if open.Some? {
      MarkedCore(open.value, prices, at);
    }
  }

  /** A marking loses nothing exactly when what it read is current in every row it writes back. */
  lemma MarkLosesNothingIff(t: Tables, read: Tables, prices: seq<MarkPriceInput>, at: Time)
    requires DistinctIds(read.positions) && read.account.Some? && t.account.Some?
    ensures Keeps(t, AfterMarkWrite(t, read, prices, at)) <==> Current(t, read)
  {
    hide Core, OpenIn, MarkedRows, OpenRows;
    forall i | 0 <= i < |t.positions|
      ensures Core(AfterMarkWrite(t, read, prices, at).positions[i]) == Core(t.positions[i])
              <==> CurrentRow(t.positions[i], read)
    {
      WrittenCore(t, read, prices, at, i);
    }
  }

  /** It opens a closed position again exactly when that position was open at its reading. */
  lemma MarkReopensIff(t: Tables, read: Tables, prices: seq<MarkPriceInput>, at: Time, i: nat)
    requires DistinctIds(read.positions) && read.account.Some? && i < |t.positions| && t.positions[i].status == Closed
    ensures AfterMarkWrite(t, read, prices, at).positions[i].status == Open
            <==> OpenIn(read.positions, t.positions[i].id).Some?
  {
    hide Core, OpenIn, MarkedRows, OpenRows;
    WrittenCore(t, read, prices, at, i);
  }

  /**
   * A position that was closed while its book was being marked is open again, for its old quantity, and no request can
   * close it: the closing order it already has stands in the way.
   */
  lemma ReopenedPositionIsStuck(read: Tables, later: seq<Op>, prices: seq<MarkPriceInput>, at: Time, i: nat,
                                request: CloseRequest, ticks: map<string, MarkTick>, staleThreshold: nat, now: Time)
    requires Inv(read) && read.account.Some? && i < |RunOps(read, later).positions|
    requires RunOps(read, later).positions[i].status == Closed
    requires OpenIn(read.positions, RunOps(read, later).positions[i].id).Some?
    requires request.positionId == RunOps(read, later).positions[i].id
    ensures var next := AfterMarkWrite(RunOps(read, later), read, prices, at);
            && next.positions[i].status == Open
            && next.positions[i].quantity == OpenIn(read.positions, request.positionId).value.quantity > 0.0
            && CloseOutcome(next, request, ticks, staleThreshold, now).Failure?
  {
    hide RunOps, MarkedRows, OpenRows, CloseOutcome;
    var t := RunOps(read, later);
    RunKeepsInv(read, later);
    WrittenCore(t, read, prices, at, i);
    var next := AfterMarkWrite(t, read, prices, at);
    assert Core(next.positions[i]).quantity == next.positions[i].quantity;
    var j :| 0 <= j < |t.fills| && t.fills[j].orderId == Closing(request.positionId);
    WrittenKeepsIds(t.positions, MarkedRows(OpenRows(read.positions), prices, at));
    FoundAt(t.positions, i);
    ClosingOrderStands(next, request, ticks, staleThreshold, now);
  }

  lemma FoundAt(positions: seq<Position>, i: nat)
    requires DistinctIds(positions) && i < |positions|
    ensures Ledger.Find(positions, positions[i].id) == Some(i)
  {
  }

  lemma ClosingOrderStands(t: Tables, request: CloseRequest, ticks: map<string, MarkTick>, staleThreshold: nat,
                           now: Time)
    requires t.account.Some? && FindFill(t.fills, Closing(request.positionId)).Some?
    requires var i := Ledger.Find(t.positions, request.positionId);
             i.Some? && t.positions[i.value].status == Open
    ensures CloseOutcome(t, request, ticks, staleThreshold, now).Failure?
  {
    hide ClosePositionMarketSimulated, StoredCloseSummary, ExpectedConfirmation, StaleTick;
  }

  predicate OnlyMarkings(ops: seq<Op>) { forall k :: 0 <= k < |ops| ==> ops[k].Marked? }

  lemma MarkKeepsRows(t: Tables, prices: seq<MarkPriceInput>, at: Time)
    requires Inv(t) && t.account.Some?
    ensures Keeps(t, AfterMark(t, prices, at))
  {
    hide AfterMark, Core, MarkedPosition, OpenRows;
    MarkStep(t, prices, at);
    forall i | 0 <= i < |t.positions| && t.positions[i].status == Open
      ensures Core(MarkedPosition(t.positions[i], prices, at)) == Core(t.positions[i])
    {
      MarkedCore(t.positions[i], prices, at);
    }
  }

  lemma {:induction false} MarkingsKeepRows(t: Tables, ops: seq<Op>)
    requires Inv(t) && t.account.Some? && OnlyMarkings(ops)
    ensures Keeps(t, RunOps(t, ops))
    decreases |ops|
  {
    hide Core, Inv, AfterMark;
    if ops != [] {
      var before := ops[..|ops| - 1];
      MarkingsKeepRows(t, before);
      RunKeepsInv(t, before);
      MarkKeepsRows(RunOps(t, before), ops[|ops| - 1].prices, ops[|ops| - 1].at);
    }
  }

  /** Markings that overlap each other, but no fill or close, lose nothing. */
  lemma OverlappingMarkingsLoseNothing(read: Tables, others: seq<Op>, prices: seq<MarkPriceInput>, at: Time)
    requires Inv(read) && read.account.Some? && OnlyMarkings(others)
    ensures Keeps(RunOps(read, others), AfterMarkWrite(RunOps(read, others), read, prices, at))
  {
    hide RunOps, OpenIn, MarkedRows, OpenRows;
    var t := RunOps(read, others);
    MarkingsKeepRows(read, others);
    forall i | 0 <= i < |t.positions|
      ensures CurrentRow(t.positions[i], read)
    {
      SameId(read.positions[i], t.positions[i]);
      OpenInItself(read.positions, i);
    }
    MarkLosesNothingIff(t, read, prices, at);
  }

  lemma SameId(p: Position, q: Position)
    requires Core(p) == Core(q)
    ensures p.id == q.id
  {
    assert Core(p).id == p.id && Core(q).id == q.id;
  }

  /** An open position with a closing order is refused for that order, when nothing else is wrong. */
  lemma DuplicateIsRefused(t: Tables, request: CloseRequest, exit: real, now: Time)
    requires t.account.Some? && |t.positions| == 1 && t.positions[0].status == Open && t.positions[0].quantity > 0.0
    requires request.positionId == t.positions[0].id && request.marketSimulated && exit > 0.0
    requires request.confirmationText == ExpectedConfirmation(t.positions[0].symbol)
    requires FindFill(t.fills, Closing(t.positions[0].id)).Some?
    ensures CloseOutcome(t, request, map[t.positions[0].symbol := MarkTick(exit, now)], 0, now)
            == Failure(DuplicateClosingOrder)
  {
    hide ExpectedConfirmation, StoredCloseSummary, FindFill;
    assert t.positions[..0] == [];
    var p := t.positions[0];
    PositionLaws.MarketCloseOutcome(t.account.value, p, Closing(p.id), t.nextId, exit, 0.0, 0.0, now);
    hide ClosePositionMarketSimulated;
  }

  /** What closing the only position leaves. */
  lemma OnlyPositionClosed(t: Tables, request: CloseRequest, exit: real, now: Time)
    requires Inv(t) && t.account.Some? && |t.positions| == 1 && t.positions[0].status == Open
    requires request.positionId == t.positions[0].id && request.marketSimulated && exit > 0.0
    requires request.confirmationText == ExpectedConfirmation(t.positions[0].symbol)
    requires FindFill(t.fills, Closing(t.positions[0].id)).None?
    ensures var ticks := map[t.positions[0].symbol := MarkTick(exit, now)];
            var closed := AfterClose(t, request, ticks, 0, now);
            && |closed.positions| == 1 && closed.positions[0].status == Closed && closed.positions[0].id == request.positionId
            && closed.account.Some?
            && closed.account.value.realizedPnl
               == t.account.value.realizedPnl + (exit - t.positions[0].entryPrice) * t.positions[0].quantity
            && FindFill(closed.fills, Closing(request.positionId)).Some?
  {
    hide ExpectedConfirmation, AfterClose, CloseOutcome, FindFill;
    var ticks := map[t.positions[0].symbol := MarkTick(exit, now)];
    RepeatedCloses.OnlyPositionCloses(t, request, exit, now);
    CloseStep(t, request, ticks, 0, now);
    CloseRows(t, request, ticks, 0, now);
    FoundAt(t.positions, 0);
    var closed := AfterClose(t, request, ticks, 0, now);
    var p := t.positions[0];
    PositionLaws.MarketCloseOutcome(t.account.value, p, Closing(p.id), t.nextId, exit, 0.0, 0.0, now);
    assert closed.fills[|t.fills|].orderId == Closing(request.positionId);
  }

  /**
   * The shortest such run: buy, read, close, write. The position is open again, what the close realized is gone from
   * the account, and closing it again fails on the order that closed it.
   */
  lemma CloseWhileMarkingIsUndone(symbol: string, price: real, exit: real, prices: seq<MarkPriceInput>, now: Time)
    requires exit > 0.0
    ensures var read := RunOps(EMPTY_TABLES, [OrderFilled(RepeatedCloses.LateOrder(symbol, price, now), now)]);
            var request := CloseRequest(2, ExpectedConfirmation(symbol), true, false);
            var ticks := map[symbol := MarkTick(exit, now)];
            var closed := AfterClose(read, request, ticks, 0, now);
            && read.account.Some? && |closed.positions| == 1 && closed.positions[0].status == Closed
            && closed.account.Some? && closed.account.value.realizedPnl == read.account.value.realizedPnl + exit - price
            && var next := AfterMarkWrite(closed, read, prices, now);
               && next.positions[0].status == Open
               && next.account.value.realizedPnl == read.account.value.realizedPnl
               && CloseOutcome(next, request, ticks, 0, now) == Failure(DuplicateClosingOrder)
  {
    hide ExpectedConfirmation, RunOps, AfterClose, CloseOutcome, Inv, FindFill;
    var ops := [OrderFilled(RepeatedCloses.LateOrder(symbol, price, now), now)];
    var read := RunOps(EMPTY_TABLES, ops);
    var request := CloseRequest(2, ExpectedConfirmation(symbol), true, false);
    RepeatedCloses.OneBuy(symbol, price, now, now);
    RunKeepsInv(EMPTY_TABLES, ops);
    OnlyPositionClosed(read, request, exit, now);
    var closed := AfterClose(read, request, map[symbol := MarkTick(exit, now)], 0, now);
    OnlyRowWritten(closed, read, prices, now);
    DuplicateIsRefused(AfterMarkWrite(closed, read, prices, now), request, exit, now);
  }

  lemma OnlyRowWritten(t: Tables, read: Tables, prices: seq<MarkPriceInput>, at: Time)
    requires |t.positions| == |read.positions| == 1 && t.positions[0].id == read.positions[0].id
    requires read.account.Some? && read.positions[0].status == Open
    ensures var next := AfterMarkWrite(t, read, prices, at);
            && next.account.value.realizedPnl == read.account.value.realizedPnl
            && |next.positions| == 1 && next.positions[0] == MarkedPosition(read.positions[0], prices, at)
  {
    hide MarkedRows, OpenRows, MarkedPosition, OpenIn;
    WrittenAt(t.positions, read.positions, prices, at, 0);
    OpenInItself(read.positions, 0);
  }
}
