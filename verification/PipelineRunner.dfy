/** One pipeline run as the service executes it, against the order table and the paper book. */
module PipelineRunner {
  import opened Wrappers
  import opened Accounting
  import opened PaperBook
  import opened IdempotencyKeys
  import opened OrderPipeline
  import PaperBookRuns
  import Text
  import Market

  class PaperPipeline {
    var orders: map<string, StoredOrder>
    var nextOrder: Id
    const book: PaperTables

    constructor (book: PaperTables)
      ensures this.book == book && orders == map[] && nextOrder == 0
    {
      this.book, orders, nextOrder := book, map[], 0;
    }

    /** Inserts a paper order and fills it, unless the intent is invalid or its key is taken. */
    method CreatePaperOrder(id: RunId, key: string, parts: KeyParts, intent: Intent, at: Time)
      returns (created: Result<Option<StoredOrder>, PipelineError>)
      modifies this
      ensures var valid := Text.Trim(key) != "" && intent.quantity > 0.0 && intent.price > 0.0;
              var stored := StoredOrder(id, parts.riskDecisionId, FilledOrder(old(nextOrder), OrderSymbol(parts), intent, at));
              if !valid then
                created == Failure(InvalidQuantity) && orders == old(orders) && nextOrder == old(nextOrder)
              else if key in old(orders) then
                created == Success(None) && orders == old(orders) && nextOrder == old(nextOrder)
              else
                created == Success(Some(stored)) && orders == old(orders)[key := stored]
                && nextOrder == old(nextOrder) + 1
    {
      if Text.Trim(key) == "" || intent.quantity <= 0.0 || intent.price <= 0.0 {
        return Failure(InvalidQuantity);
      }
      if key in orders {
        return Success(None);
      }
      var stored := StoredOrder(id, parts.riskDecisionId, FilledOrder(nextOrder, OrderSymbol(parts), intent, at));
      orders := orders[key := stored];
      nextOrder := nextOrder + 1;
      created := Success(Some(stored));
    }

    /** After a collision on the key: the order that took it. */
    method ReloadOrder(key: string) returns (outcome: Outcome)
      ensures outcome == if key in orders then OrderReused(orders[key].order.id) else Rejected(DuplicateKeyWithoutOrder)
    {
      if key in orders {
        return OrderReused(orders[key].order.id);
      }
      return Rejected(DuplicateKeyWithoutOrder);
    }

    /** From the approved risk decision to the reported outcome. */
    method RunPaperPipeline(id: RunId, request: Request, at: Time, now: Time)
      returns (r: Result<Outcome, AccountingError>)
      requires PaperBookRuns.Inv(book.State())
      modifies this, book
      ensures PaperBookRuns.Inv(book.State())
      ensures var key := BuildIdempotencyKey(request.parts);
              if !Accepted(request.parts) then
                r == Success(Rejected(InvalidRequest))
                && orders == old(orders) && nextOrder == old(nextOrder) && book.State() == old(book.State())
              else if key in old(orders) then
                r == Success(OrderReused(old(orders)[key].order.id))
                && orders == old(orders) && nextOrder == old(nextOrder) && book.State() == old(book.State())
              else if request.close <= 0.0 || request.notional <= 0.0 then
                r == Success(Rejected(if request.close <= 0.0 then CloseNotPositive else InvalidQuantity))
                && orders == old(orders) && nextOrder == old(nextOrder) && book.State() == old(book.State())
              else
                var intent := Intent(request.notional / request.close, request.close);
                var order := FilledOrder(old(nextOrder), OrderSymbol(request.parts), intent, at);
                && r == Success(OrderCreated(order.id))
                && orders == old(orders)[key := StoredOrder(id, request.parts.riskDecisionId, order)]
                && nextOrder == old(nextOrder) + 1
                && book.State() == AfterOrder(old(book.State()), order, now)
                && Market.NormalFormOf(order.symbol, request.parts.symbol)
    {
      hide BuildIdempotencyKey, AfterOrder, PaperBookRuns.Inv, Accepted, OrderSymbol, Market.NormalFormOf;
      if !Accepted(request.parts) {
        return Success(Rejected(InvalidRequest));
      }
      var key := BuildIdempotencyKey(request.parts);
      if key in orders {
        return Success(OrderReused(orders[key].order.id));
      }
      var intent := BuildOrderIntent(request.notional, request.close);
      if intent.Failure? {
        return Success(Rejected(intent.error));
      }
      KeyIsNotBlank(Run(request, Approved));
      AcceptedSymbolIsNormal(request.parts);
      QuotientIsExact(request.notional, request.close);
      var created := CreatePaperOrder(id, key, request.parts, intent.value, at);
      if created.Failure? {
        return Success(Rejected(created.error));
      }
      if created.value.None? {
        var reloaded := ReloadOrder(key);
        return Success(reloaded);
      }
      var order := created.value.value.order;
      PositionsHold(book.State());
      PaperBookRuns.OrderKeepsInv(book.State(), order, now);
      var booked := book.PersistPaperFillAccounting(order, now);
      match booked {
        case Success(_) => r := Success(OrderCreated(order.id));
        case Failure(e) => r := Failure(e);
      }
    }
  }

  lemma AcceptedSymbolIsNormal(parts: KeyParts)
    requires Accepted(parts)
    ensures Market.NormalFormOf(OrderSymbol(parts), parts.symbol)
  {
    hide Market.KnownStrategy, Market.NormalFormOf;
    Market.NewSymbolIsNormalForm(parts.symbol);
  }

  lemma PositionsHold(t: Tables)
    requires PaperBookRuns.Inv(t)
    ensures forall k :: 0 <= k < |t.positions| ==> t.positions[k].quantity >= 0.0
  {
  }
}
