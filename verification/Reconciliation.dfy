/** Reconciling stored testnet orders with the exchange's answers. */
module Reconciliation {
  import opened Wrappers
  import Text

  datatype ExchangeOrderState = New | PartiallyFilled | Filled | Canceled | Rejected | Expired | PendingCancel

  datatype ExchangeError =
    | Configuration(message: string)
    | LiveEnvironmentDisabled
    | Validation(message: string)
    | Authentication
    | RateLimited
    | Api(message: string)
    | Transport(message: string)
    | Serialization(message: string)

  datatype Answer = Status(state: ExchangeOrderState, exchangeOrderId: Option<string>) | NoAnswer(error: ExchangeError)

  datatype ExecutionState =
    | IntentCreated | RiskApproved | OrderPrepared | OrderSubmitRequested | ExchangeAcked | NewState
    | PartiallyFilledState | FilledState | CancelRequested | Cancelled | RejectedState | ExpiredState
    | ReconciliationRequired | UnknownExchange | FailedState

  datatype NormalizedStatus = NNew | NPartiallyFilled | NFilled | NCancelled | NRejected | NExpired

  datatype Kind = StatusMismatch | ExchangeOrderMissing | AckWithoutStatus | CancelNotConfirmed | UnknownExchangeState

  datatype Action = UpdateLocalStatus | Alert

  datatype Order = Order(
    clientOrderId: string,
    exchangeOrderId: Option<string>,
    status: string,
    executionState: string,
    hasAck: bool)

  datatype Mismatch = Mismatch(clientOrderId: string, localStatus: string, kind: Kind, action: Action)

  datatype Summary = Summary(checked: nat, matched: nat, mismatched: nat, unknown: nat)

  datatype Outcome = Completed(summary: Summary) | FetchFailed(summary: Summary)

  // ---------------------------------------------------------------------------------------------
  // Status names

  function LocalStatus(state: ExchangeOrderState): Option<string> {
    match state
    case New => Some("NEW")
    case PartiallyFilled => Some("PARTIALLY_FILLED")
    case Filled => Some("FILLED")
    case Canceled => Some("CANCELLED")
    case Rejected => Some("REJECTED")
    case Expired => Some("EXPIRED")
    case PendingCancel => None
  }

  function NormalizeName(name: string): Option<NormalizedStatus> {
    if name == "ACKED" || name == "NEW" then Some(NNew)
    else if name == "PARTIALLY_FILLED" then Some(NPartiallyFilled)
    else if name == "FILLED" then Some(NFilled)
    else if name == "CANCELED" || name == "CANCELLED" then Some(NCancelled)
    else if name == "REJECTED" then Some(NRejected)
    else if name == "EXPIRED" then Some(NExpired)
    else None
  }

  function NormalizeLocalStatus(value: string): Option<NormalizedStatus> {
    NormalizeName(Text.ToAsciiUpper(Text.Trim(value)))
  }

  function StateName(state: ExecutionState): string {
    match state
    case IntentCreated => "INTENT_CREATED"
    case RiskApproved => "RISK_APPROVED"
    case OrderPrepared => "ORDER_PREPARED"
    case OrderSubmitRequested => "ORDER_SUBMIT_REQUESTED"
    case ExchangeAcked => "EXCHANGE_ACKED"
    case NewState => "NEW"
    case PartiallyFilledState => "PARTIALLY_FILLED"
    case FilledState => "FILLED"
    case CancelRequested => "CANCEL_REQUESTED"
    case Cancelled => "CANCELLED"
    case RejectedState => "REJECTED"
    case ExpiredState => "EXPIRED"
    case ReconciliationRequired => "RECONCILIATION_REQUIRED"
    case UnknownExchange => "UNKNOWN_EXCHANGE_STATE"
    case FailedState => "FAILED"
  }

  /** The state a name stands for; a name that stands for none is read as FAILED. */
  function StateOfName(name: string): ExecutionState {
    if name == "INTENT_CREATED" then IntentCreated
    else if name == "RISK_APPROVED" then RiskApproved
    else if name == "ORDER_PREPARED" then OrderPrepared
    else if name == "ORDER_SUBMIT_REQUESTED" then OrderSubmitRequested
    else if name == "EXCHANGE_ACKED" then ExchangeAcked
    else if name == "NEW" then NewState
    else if name == "PARTIALLY_FILLED" then PartiallyFilledState
    else if name == "FILLED" then FilledState
    else if name == "CANCEL_REQUESTED" then CancelRequested
    else if name == "CANCELLED" then Cancelled
    else if name == "REJECTED" then RejectedState
    else if name == "EXPIRED" then ExpiredState
    else if name == "RECONCILIATION_REQUIRED" then ReconciliationRequired
    else if name == "UNKNOWN_EXCHANGE_STATE" then UnknownExchange
    else FailedState
  }

  function ParseState(value: string): ExecutionState {
    StateOfName(Text.ToAsciiUpper(Text.Trim(value)))
  }

  predicate IsTerminal(state: ExecutionState) {
    state in {FilledState, Cancelled, RejectedState, ExpiredState, FailedState}
  }

  // ---------------------------------------------------------------------------------------------
  // The lifecycle

  function RestState(state: ExchangeOrderState): ExecutionState {
    match state
    case New => NewState
    case PartiallyFilled => PartiallyFilledState
    case Filled => FilledState
    case Canceled => Cancelled
    case PendingCancel => CancelRequested
    case Rejected => RejectedState
    case Expired => ExpiredState
  }

  predicate AcceptsTransition(previous: ExecutionState, next: ExecutionState) {
    next == UnknownExchange ||
    (!IsTerminal(previous) &&
     match previous
     case IntentCreated =>
       next in {RiskApproved, OrderPrepared, OrderSubmitRequested, RejectedState, FailedState, ReconciliationRequired}
     case RiskApproved => next in {OrderPrepared, OrderSubmitRequested, RejectedState, FailedState, ReconciliationRequired}
     case OrderPrepared => next in {OrderSubmitRequested, RejectedState, FailedState, ReconciliationRequired}
     case OrderSubmitRequested =>
       next in {ExchangeAcked, NewState, PartiallyFilledState, FilledState, RejectedState, ExpiredState,
                CancelRequested, ReconciliationRequired, FailedState}
     case ExchangeAcked =>
       next in {NewState, PartiallyFilledState, FilledState, CancelRequested, Cancelled, RejectedState, ExpiredState,
                ReconciliationRequired, FailedState}
     case NewState =>
       next in {PartiallyFilledState, FilledState, CancelRequested, Cancelled, RejectedState, ExpiredState,
                ReconciliationRequired, FailedState}
     case PartiallyFilledState =>
       next in {PartiallyFilledState, FilledState, CancelRequested, Cancelled, ExpiredState, ReconciliationRequired,
                FailedState}
     case CancelRequested =>
       next in {Cancelled, FilledState, PartiallyFilledState, ReconciliationRequired, FailedState}
     case ReconciliationRequired =>
       next in {ExchangeAcked, NewState, PartiallyFilledState, FilledState, CancelRequested, Cancelled, RejectedState,
                ExpiredState, FailedState, ReconciliationRequired}
     case UnknownExchange => next in {ReconciliationRequired, FailedState}
     case _ => false)
  }

  /** The execution state a pass stores: the exchange's when the lifecycle allows it, a repair flag otherwise. */
  function StoredState(executionState: string, state: ExchangeOrderState): string {
    if AcceptsTransition(ParseState(executionState), RestState(state)) then StateName(RestState(state))
    else "RECONCILIATION_REQUIRED"
  }

  function StoredOrder(order: Order, state: ExchangeOrderState, exchangeOrderId: Option<string>): Order {
    order.(exchangeOrderId := if exchangeOrderId.Some? then exchangeOrderId else order.exchangeOrderId,
           status := LocalStatus(state).GetOr(order.status),
           executionState := StoredState(order.executionState, state))
  }

  // ---------------------------------------------------------------------------------------------
  // The comparison

  predicate IsOrderMissing(error: ExchangeError) {
    match error
    case Api(message) =>
      var lower := Text.ToAsciiLower(message);
      Text.Contains(lower, "order does not exist") || Text.Contains(lower, "-2013")
    case _ => false
  }

  datatype Evaluation = Evaluation(canonical: Option<string>, mismatch: Option<(Kind, Action)>)

  function EvaluateOrder(order: Order, state: ExchangeOrderState): Evaluation {
    match LocalStatus(state)
    case None => Evaluation(None, Some((UnknownExchangeState, Alert)))
    case Some(exchangeLocal) =>
      var local := NormalizeLocalStatus(order.status);
      var exchange := NormalizeLocalStatus(exchangeLocal);
      if order.status == "SUBMIT_REQUESTED" && order.hasAck then
        Evaluation(Some(exchangeLocal), Some((AckWithoutStatus, UpdateLocalStatus)))
      else if local == Some(NCancelled) && exchange != Some(NCancelled) then
        Evaluation(Some(exchangeLocal), Some((CancelNotConfirmed, Alert)))
      else if local == exchange then Evaluation(Some(exchangeLocal), None)
      else Evaluation(Some(exchangeLocal), Some((StatusMismatch, UpdateLocalStatus)))
  }

  /** What a pass records against one order, if anything. */
  function Verdict(order: Order, answer: Answer): Option<(Kind, Action)> {
    match answer
    case Status(state, _) => EvaluateOrder(order, state).mismatch
    case NoAnswer(_) => Some((ExchangeOrderMissing, Alert))
  }

  predicate Answered(answer: Answer) { answer.Status? || IsOrderMissing(answer.error) }

  function AfterOne(order: Order, answer: Answer): Order {
    match answer
    case Status(state, id) => StoredOrder(order, state, id)
    case NoAnswer(_) => order
  }

  /** The table after a pass over the listed orders. */
  function AfterPass(orders: map<string, Order>, ids: seq<string>, answers: string -> Answer): map<string, Order> {
    map k | k in orders :: if k in ids then AfterOne(orders[k], answers(k)) else orders[k]
  }

  function CountOne(s: Summary, verdict: Option<(Kind, Action)>): Summary {
    match verdict
    case None => s.(checked := s.checked + 1, matched := s.matched + 1)
    case Some((kind, _)) =>
      s.(checked := s.checked + 1, mismatched := s.mismatched + 1,
         unknown := s.unknown + if kind.ExchangeOrderMissing? || kind.UnknownExchangeState? then 1 else 0)
  }

  ghost predicate Listed(orders: map<string, Order>, ids: seq<string>) {
    && (forall id :: id in ids ==> id in orders && orders[id].clientOrderId == id)
    && (forall i, j :: 0 <= i < j < |ids| ==> ids[i] != ids[j])
  }

  function Tally(orders: map<string, Order>, ids: seq<string>, answers: string -> Answer): Summary
    requires forall id :: id in ids ==> id in orders
  {
    if ids == [] then Summary(0, 0, 0, 0)
    else
      var last := ids[|ids| - 1];
      CountOne(Tally(orders, ids[..|ids| - 1], answers), Verdict(orders[last], answers(last)))
  }

  function Recorded(orders: map<string, Order>, ids: seq<string>, answers: string -> Answer): seq<Mismatch>
    requires forall id :: id in ids ==> id in orders
  {
    if ids == [] then []
    else
      var last := ids[|ids| - 1];
      Recorded(orders, ids[..|ids| - 1], answers)
      + RecordOne(last, orders[last].status, Verdict(orders[last], answers(last)))
  }

  /** How many orders a pass gets through before one whose status cannot be fetched. */
  function Reach(ids: seq<string>, answers: string -> Answer): (n: nat)
    ensures n <= |ids| && (forall i :: 0 <= i < n ==> Answered(answers(ids[i])))
    ensures n == |ids| || !Answered(answers(ids[n]))
  {
    if ids == [] then 0
    else
      var k := |ids| - 1;
      var earlier := Reach(ids[..k], answers);
      if earlier < k then earlier else if Answered(answers(ids[k])) then k + 1 else k
  }

  lemma {:induction false} ReachFound(ids: seq<string>, answers: string -> Answer, n: nat)
    requires n < |ids| && (forall i :: 0 <= i < n ==> Answered(answers(ids[i]))) && !Answered(answers(ids[n]))
    ensures Reach(ids, answers) == n
  {
  }

  lemma PassExtends(orders: map<string, Order>, ids: seq<string>, answers: string -> Answer, i: nat)
    requires Listed(orders, ids) && i < |ids|
    ensures ids[..i + 1][..i] == ids[..i]
    ensures ids[i] in AfterPass(orders, ids[..i], answers)
    ensures AfterPass(orders, ids[..i], answers)[ids[i]] == orders[ids[i]]
    ensures AfterPass(orders, ids[..i + 1], answers)
            == AfterPass(orders, ids[..i], answers)[ids[i] := AfterOne(orders[ids[i]], answers(ids[i]))]
  {
    assert ids[..i + 1] == ids[..i] + [ids[i]];
  }

  lemma CountsExtend(orders: map<string, Order>, ids: seq<string>, answers: string -> Answer, i: nat)
    requires Listed(orders, ids) && i < |ids|
    ensures var verdict := Verdict(orders[ids[i]], answers(ids[i]));
            && Tally(orders, ids[..i + 1], answers) == CountOne(Tally(orders, ids[..i], answers), verdict)
            && Recorded(orders, ids[..i + 1], answers)
               == Recorded(orders, ids[..i], answers) + RecordOne(ids[i], orders[ids[i]].status, verdict)
  {
    hide Verdict;
    assert ids[..i + 1][..i] == ids[..i];
  }

  lemma CanonicalIsExchangeStatus(order: Order, state: ExchangeOrderState)
    ensures EvaluateOrder(order, state).canonical == LocalStatus(state)
  {
    hide NormalizeLocalStatus;
  }

  function RecordOne(id: string, status: string, verdict: Option<(Kind, Action)>): seq<Mismatch> {
    match verdict
    case None => []
    case Some((kind, action)) => [Mismatch(id, status, kind, action)]
  }

  class OrderTable {
    var orders: map<string, Order>
    var mismatches: seq<Mismatch>

    constructor (orders: map<string, Order>)
      ensures this.orders == orders && mismatches == []
    {
      this.orders, mismatches := orders, [];
    }

    /** Appends the lifecycle event and rewrites the order row, the payload columns aside. */
    method StoreStatus(order: Order, state: ExchangeOrderState, exchangeOrderId: Option<string>, persisted: string)
      requires order.clientOrderId in orders && orders[order.clientOrderId] == order
      requires persisted == LocalStatus(state).GetOr(order.status)
      modifies this`orders
      ensures orders == old(orders)[order.clientOrderId := StoredOrder(order, state, exchangeOrderId)]
    {
      var next := RestState(state);
      var stored := if AcceptsTransition(ParseState(order.executionState), next) then StateName(next)
                    else "RECONCILIATION_REQUIRED";
      var row := orders[order.clientOrderId];
      orders := orders[order.clientOrderId := row.(
        exchangeOrderId := if exchangeOrderId.Some? then exchangeOrderId else row.exchangeOrderId,
        status := persisted,
        executionState := stored)];
    }

    /** Compares one answered order, stores the answer, and counts and records what was found. */
    method CompareAndStore(order: Order, state: ExchangeOrderState, exchangeOrderId: Option<string>, before: Summary)
      returns (summary: Summary)
      requires order.clientOrderId in orders && orders[order.clientOrderId] == order
      modifies this
      ensures orders == old(orders)[order.clientOrderId := StoredOrder(order, state, exchangeOrderId)]
      ensures mismatches == old(mismatches)
                            + RecordOne(order.clientOrderId, order.status, EvaluateOrder(order, state).mismatch)
      ensures summary == CountOne(before, EvaluateOrder(order, state).mismatch)
    {
      hide EvaluateOrder, StoredOrder, LocalStatus;
      CanonicalIsExchangeStatus(order, state);
      summary := before.(checked := before.checked + 1);
      var evaluation := EvaluateOrder(order, state);
      StoreStatus(order, state, exchangeOrderId, evaluation.canonical.GetOr(order.status));
      match evaluation.mismatch {
        case Some((kind, action)) =>
          summary := summary.(mismatched := summary.mismatched + 1);
          if kind.ExchangeOrderMissing? || kind.UnknownExchangeState? {
            summary := summary.(unknown := summary.unknown + 1);
          }
          mismatches := mismatches + [Mismatch(order.clientOrderId, order.status, kind, action)];
        case None =>
          summary := summary.(matched := summary.matched + 1);
      }
    }

    /** One pass over the listed orders; it ends early when the status of an order cannot be fetched. */
    method ReconcileTestnetOrders(ids: seq<string>, answers: string -> Answer) returns (r: Outcome)
      requires Listed(orders, ids)
      modifies this
      ensures var reached := ids[..Reach(ids, answers)];
              && orders == AfterPass(old(orders), reached, answers)
              && mismatches == old(mismatches) + Recorded(old(orders), reached, answers)
              && r == if reached == ids then Completed(Tally(old(orders), reached, answers))
                      else FetchFailed(Tally(old(orders), reached, answers))
    {
      hide StoredOrder, EvaluateOrder, IsOrderMissing, AfterPass, Tally, Recorded;
      var listed := seq(|ids|, i requires 0 <= i < |ids| reads this requires ids[i] in orders => orders[ids[i]]);
      var summary := Summary(0, 0, 0, 0);
      ghost var start := orders;
      var i := 0;
      NothingPassed(start, answers);
      while i < |ids|
        invariant 0 <= i <= |ids|
        invariant forall j :: 0 <= j < i ==> Answered(answers(ids[j]))
        invariant orders == AfterPass(start, ids[..i], answers)
        invariant mismatches == old(mismatches) + Recorded(start, ids[..i], answers)
        invariant summary == Tally(start, ids[..i], answers)
      {
        var order := listed[i];
        var answer := answers(order.clientOrderId);
        PassExtends(start, ids, answers, i);
        CountsExtend(start, ids, answers, i);
        match answer {
          case Status(state, exchangeOrderId) =>
            summary := CompareAndStore(order, state, exchangeOrderId, summary);
          case NoAnswer(error) =>
            if !IsOrderMissing(error) {
              ReachFound(ids, answers, i);
              return FetchFailed(summary);
            }
            summary := Summary(summary.checked + 1, summary.matched, summary.mismatched + 1, summary.unknown + 1);
            mismatches := mismatches + [Mismatch(order.clientOrderId, order.status, ExchangeOrderMissing, Alert)];
        }
        i := i + 1;
      }
      assert ids[..|ids|] == ids;
      r := Completed(summary);
    }
  }

  lemma NothingPassed(orders: map<string, Order>, answers: string -> Answer)
    ensures AfterPass(orders, [], answers) == orders
    ensures Tally(orders, [], answers) == Summary(0, 0, 0, 0) && Recorded(orders, [], answers) == []
  {
  }
}
