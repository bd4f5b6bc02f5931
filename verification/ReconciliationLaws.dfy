/** What reconciliation passes count, where they converge, and where they do not. */
module ReconciliationLaws {
  import opened Wrappers
  import opened Reconciliation
  import Text

  predicate CountsAsUnknown(m: Mismatch) {
    m.kind.ExchangeOrderMissing? || m.kind.UnknownExchangeState?
  }

  function UnknownRecords(records: seq<Mismatch>): nat {
    if records == [] then 0
    else UnknownRecords(records[..|records| - 1]) + if CountsAsUnknown(records[|records| - 1]) then 1 else 0
  }

  /** The counters of a pass add up, whether it completed or ended early: nothing is counted twice or dropped. */
  lemma {:induction false} CountersAreExact(orders: map<string, Order>, ids: seq<string>, answers: string -> Answer)
    requires forall id :: id in ids ==> id in orders
    ensures var s, records := Tally(orders, ids, answers), Recorded(orders, ids, answers);
            && s.matched + s.mismatched == s.checked == |ids|
            && s.mismatched == |records|
            && s.unknown == UnknownRecords(records) <= s.mismatched
    decreases |ids|
  {
    hide Verdict;
    if ids != [] {
      var k := |ids| - 1;
      CountersAreExact(orders, ids[..k], answers);
      var before, after := Recorded(orders, ids[..k], answers), Recorded(orders, ids, answers);
      if Verdict(orders[ids[k]], answers(ids[k])).Some? {
        assert after[..|before|] == before;
      } else {
        assert after == before;
      }
    }
  }

  /** A pass that fails to fetch a status has checked exactly the orders before that one. */
  lemma FailedPassCheckedThePrefix(orders: map<string, Order>, ids: seq<string>, answers: string -> Answer, n: nat)
    requires Listed(orders, ids) && n < |ids|
    requires (forall i :: 0 <= i < n ==> Answered(answers(ids[i]))) && !Answered(answers(ids[n]))
    ensures Reach(ids, answers) == n && Tally(orders, ids[..n], answers).checked == n
  {
    ReachFound(ids, answers, n);
    CountersAreExact(orders, ids[..n], answers);
  }

  // ---------------------------------------------------------------------------------------------
  // Convergence of the local status

  predicate Mappable(answer: Answer) { answer.Status? && !answer.state.PendingCancel? }

  lemma LocalStatusIsName(state: ExchangeOrderState)
    requires !state.PendingCancel?
    ensures LocalStatus(state).Some? && Text.IsName(LocalStatus(state).value)
  {
  }

  lemma LocalStatusNormalizes(state: ExchangeOrderState)
    requires !state.PendingCancel?
    ensures LocalStatus(state).Some? && NormalizeName(LocalStatus(state).value).Some?
    ensures NormalizeName(LocalStatus(state).value) == Some(NCancelled) <==> state.Canceled?
  {
  }

  lemma LocalStatusIsNormal(state: ExchangeOrderState)
    requires !state.PendingCancel?
    ensures LocalStatus(state).Some?
    ensures NormalizeLocalStatus(LocalStatus(state).value) == NormalizeName(LocalStatus(state).value)
    ensures NormalizeName(LocalStatus(state).value).Some?
    ensures NormalizeName(LocalStatus(state).value) == Some(NCancelled) <==> state.Canceled?
  {
    hide NormalizeName, LocalStatus, Text.IsName, Text.Trim, Text.ToAsciiUpper;
    LocalStatusIsName(state);
    LocalStatusNormalizes(state);
    Text.NameIsNormal(LocalStatus(state).value);
  }

  /** An order is matched exactly when the exchange state maps and both sides name the same normalized status. */
  lemma MatchedIff(order: Order, answer: Answer)
    ensures Verdict(order, answer).None?
            <==> Mappable(answer)
                 && NormalizeLocalStatus(order.status) == NormalizeName(LocalStatus(answer.state).value)
  {
    hide NormalizeName, NormalizeLocalStatus;
    if Mappable(answer) {
      LocalStatusIsNormal(answer.state);
      SubmitRequestedIsNoStatus();
    }
  }

  lemma SubmitRequestedIsNoStatus()
    ensures NormalizeLocalStatus("SUBMIT_REQUESTED").None?
  {
    Text.NameIsNormal("SUBMIT_REQUESTED");
  }

  /** One pass settles the status of every order whose exchange state maps; the next one finds it matched. */
  lemma OnePassSettles(order: Order, answer: Answer)
    ensures var after := AfterOne(order, answer);
            && (Mappable(answer) ==> Some(after.status) == LocalStatus(answer.state))
            && (Verdict(after, answer).None? <==> Mappable(answer))
            && (!Mappable(answer) ==> after.status == order.status)
            && AfterOne(after, answer).status == after.status
  {
    hide StoredState, NormalizeLocalStatus, NormalizeName;
    MatchedIff(AfterOne(order, answer), answer);
    if Mappable(answer) {
      LocalStatusIsNormal(answer.state);
    }
  }

  /**
   * Reconciliation converges after one completed pass. A second pass over the same orders and answers matches every
   * order whose exchange state maps, changes no local status, and records exactly the others: those pending cancel
   * at the exchange, and those the exchange does not know.
   */
  lemma SecondPassFindsOnlyTheUnmappable(orders: map<string, Order>, ids: seq<string>, answers: string -> Answer)
    requires Listed(orders, ids)
    ensures var once := AfterPass(orders, ids, answers);
            var twice := AfterPass(once, ids, answers);
            && Listed(once, ids)
            && (forall id :: id in ids && Mappable(answers(id)) ==>
                  Some(once[id].status) == LocalStatus(answers(id).state))
            && (forall id :: id in ids ==> (Verdict(once[id], answers(id)).None? <==> Mappable(answers(id))))
            && (forall id :: id in orders ==> twice[id].status == once[id].status)
  {
    hide AfterOne, Verdict;
    var once := AfterPass(orders, ids, answers);
    forall id | id in ids
      ensures once[id] == AfterOne(orders[id], answers(id)) && once[id].clientOrderId == id
      ensures Mappable(answers(id)) ==> Some(once[id].status) == LocalStatus(answers(id).state)
      ensures Verdict(once[id], answers(id)).None? <==> Mappable(answers(id))
      ensures AfterPass(once, ids, answers)[id].status == once[id].status
    {
      OnePassSettles(orders[id], answers(id));
      AfterOneKeepsId(orders[id], answers(id));
    }
  }

  lemma AfterOneKeepsId(order: Order, answer: Answer)
    ensures AfterOne(order, answer).clientOrderId == order.clientOrderId
  {
  }

  function CountUnmappable(ids: seq<string>, answers: string -> Answer): nat {
    if ids == [] then 0
    else CountUnmappable(ids[..|ids| - 1], answers) + if Mappable(answers(ids[|ids| - 1])) then 0 else 1
  }

  lemma {:induction false} SettledCounts(once: map<string, Order>, ids: seq<string>, answers: string -> Answer)
    requires forall id :: id in ids ==>
               id in once && (Verdict(once[id], answers(id)).None? <==> Mappable(answers(id)))
    ensures var s := Tally(once, ids, answers);
            && s.mismatched == s.unknown == CountUnmappable(ids, answers)
            && s.matched == |ids| - CountUnmappable(ids, answers)
    decreases |ids|
  {
    hide Verdict, Mappable;
    if ids != [] {
      var last := ids[|ids| - 1];
      SettledCounts(once, ids[..|ids| - 1], answers);
      if !Mappable(answers(last)) {
        UnmappableIsUnknown(once[last], answers(last));
      }
    }
  }

  /**
   * So a pass after a completed one counts exactly the unmappable orders as mismatched and as unknown, and all the
   * others as matched.
   */
  lemma SecondPassCounts(orders: map<string, Order>, ids: seq<string>, answers: string -> Answer)
    requires Listed(orders, ids)
    ensures var once := AfterPass(orders, ids, answers);
            && (forall id :: id in ids ==> id in once)
            && var s := Tally(once, ids, answers);
               && s.mismatched == s.unknown == CountUnmappable(ids, answers)
               && s.matched == |ids| - CountUnmappable(ids, answers)
  {
    hide Verdict, AfterOne, Mappable;
    SecondPassFindsOnlyTheUnmappable(orders, ids, answers);
    SettledCounts(AfterPass(orders, ids, answers), ids, answers);
  }

  lemma UnmappableIsUnknown(order: Order, answer: Answer)
    requires !Mappable(answer)
    ensures Verdict(order, answer).Some?
    ensures var kind := Verdict(order, answer).value.0; kind.ExchangeOrderMissing? || kind.UnknownExchangeState?
  {
  }

  // ---------------------------------------------------------------------------------------------
  // The lifecycle state does not converge

  lemma RestNameIsName(state: ExchangeOrderState)
    ensures Text.IsName(StateName(RestState(state)))
  {
  }

  lemma WorkingNameReadsBack(state: ExchangeOrderState)
    requires !IsTerminal(RestState(state))
    ensures StateOfName(StateName(RestState(state))) == RestState(state)
  {
  }

  lemma TerminalNameReadsBack(state: ExchangeOrderState)
    requires IsTerminal(RestState(state))
    ensures StateOfName(StateName(RestState(state))) == RestState(state)
  {
  }

  lemma RestNameReadsBack(state: ExchangeOrderState)
    ensures StateOfName(StateName(RestState(state))) == RestState(state)
  {
    hide StateOfName, StateName, RestState, IsTerminal;
    if IsTerminal(RestState(state)) {
      TerminalNameReadsBack(state);
    } else {
      WorkingNameReadsBack(state);
    }
  }

  lemma RestNameParsesBack(state: ExchangeOrderState)
    ensures ParseState(StateName(RestState(state))) == RestState(state)
  {
    hide StateName, StateOfName, RestState, Text.IsName, Text.Trim, Text.ToAsciiUpper;
    RestNameIsName(state);
    RestNameReadsBack(state);
    Text.NameIsNormal(StateName(RestState(state)));
  }

  lemma RepairFlagIsName()
    ensures Text.IsName("RECONCILIATION_REQUIRED")
  {
  }

  lemma RepairFlagReadsBack()
    ensures StateOfName("RECONCILIATION_REQUIRED") == ReconciliationRequired
  {
  }

  lemma RepairFlagParsesBack()
    ensures ParseState("RECONCILIATION_REQUIRED") == ReconciliationRequired
  {
    hide StateOfName, Text.IsName, Text.Trim, Text.ToAsciiUpper;
    RepairFlagIsName();
    RepairFlagReadsBack();
    Text.NameIsNormal("RECONCILIATION_REQUIRED");
  }

  lemma RestNameIsNotTheRepairFlag(state: ExchangeOrderState)
    ensures StateName(RestState(state)) != "RECONCILIATION_REQUIRED"
  {
  }

  lemma StoredStateCases(executionState: string, state: ExchangeOrderState)
    ensures var stored := StoredState(executionState, state);
            stored == StateName(RestState(state)) || stored == "RECONCILIATION_REQUIRED"
  {
  }

  /** From the repair flag a pass always stores the exchange's state; from that state it keeps it only when partly filled. */
  lemma StoredStateSteps(state: ExchangeOrderState)
    ensures StoredState("RECONCILIATION_REQUIRED", state) == StateName(RestState(state))
    ensures StoredState(StateName(RestState(state)), state)
            == if state.PartiallyFilled? then StateName(RestState(state)) else "RECONCILIATION_REQUIRED"
    ensures StateName(RestState(state)) != "RECONCILIATION_REQUIRED"
  {
    hide StateName, ParseState;
    RepairFlagParsesBack();
    RestNameParsesBack(state);
    RestNameIsNotTheRepairFlag(state);
  }

  /** One order after a number of passes over an unchanged exchange. */
  function AfterPasses(order: Order, answer: Answer, n: nat): Order {
    if n == 0 then order else AfterOne(AfterPasses(order, answer, n - 1), answer)
  }

  /**
   * The local status settles, but the lifecycle state of an answered order never does unless the order is partly
   * filled: from the first pass on it is the exchange's state after every second pass and the repair flag after the
   * others, terminal states included.
   */
  lemma {:induction false} LifecycleStateAlternates(order: Order, answer: Answer, n: nat)
    requires answer.Status? && n >= 1
    ensures var first := AfterOne(order, answer).executionState;
            var rest := StateName(RestState(answer.state));
            AfterPasses(order, answer, n).executionState ==
            if answer.state.PartiallyFilled? then (if n == 1 then first else rest)
            else if n % 2 == 1 then first
            else if first == rest then "RECONCILIATION_REQUIRED" else rest
    ensures StateName(RestState(answer.state)) != "RECONCILIATION_REQUIRED"
    decreases n
  {
    hide StoredState, StateName;
    StoredStateCases(order.executionState, answer.state);
    StoredStateSteps(answer.state);
    if n == 1 {
      assert AfterPasses(order, answer, 0) == order;
    } else {
      LifecycleStateAlternates(order, answer, n - 1);
    }
  }

  lemma PartialName()
    ensures StateName(PartiallyFilledState) == "PARTIALLY_FILLED"
  {
  }

  /** A pass leaves the lifecycle state of an answered order alone exactly when both sides say partly filled. */
  lemma LifecycleFixedPointIff(order: Order, answer: Answer)
    requires answer.Status?
    ensures AfterOne(order, answer).executionState == order.executionState
            <==> answer.state.PartiallyFilled? && order.executionState == "PARTIALLY_FILLED"
  {
    hide StoredState, StateName;
    StoredStateCases(order.executionState, answer.state);
    StoredStateSteps(answer.state);
    PartialName();
  }

  // ---------------------------------------------------------------------------------------------
  // In words

  /** The local status after a pass, for each state of the exchange. */
  lemma StatusAfterPass(order: Order, answer: Answer)
    requires answer.Status?
    ensures AfterOne(order, answer).status ==
            match answer.state
            case New => "NEW"
            case PartiallyFilled => "PARTIALLY_FILLED"
            case Filled => "FILLED"
            case Canceled => "CANCELLED"
            case Rejected => "REJECTED"
            case Expired => "EXPIRED"
            case PendingCancel => order.status
    ensures AfterOne(order, answer).exchangeOrderId
            == if answer.exchangeOrderId.Some? then answer.exchangeOrderId else order.exchangeOrderId
    ensures AfterOne(order, answer).clientOrderId == order.clientOrderId && AfterOne(order, answer).hasAck == order.hasAck
  {
    hide StoredState;
  }

  /** The spellings of a local status that each state of the exchange matches. */
  predicate Spells(name: string, state: ExchangeOrderState) {
    match state
    case New => name == "NEW" || name == "ACKED"
    case PartiallyFilled => name == "PARTIALLY_FILLED"
    case Filled => name == "FILLED"
    case Canceled => name == "CANCELLED" || name == "CANCELED"
    case Rejected => name == "REJECTED"
    case Expired => name == "EXPIRED"
    case PendingCancel => false
  }

  lemma NamesSpell(name: string, state: ExchangeOrderState)
    requires !state.PendingCancel?
    ensures NormalizeName(name) == NormalizeName(LocalStatus(state).value) <==> Spells(name, state)
  {
  }

  /** An order matches exactly when its status, trimmed and in capitals, is a spelling of the exchange's state. */
  lemma MatchedExactlyWhenSpelled(order: Order, answer: Answer)
    ensures Verdict(order, answer).None?
            <==> answer.Status? && Spells(Text.ToAsciiUpper(Text.Trim(order.status)), answer.state)
  {
    hide NormalizeName, LocalStatus, Verdict, Text.Trim, Text.ToAsciiUpper;
    MatchedIff(order, answer);
    if Mappable(answer) {
      NamesSpell(Text.ToAsciiUpper(Text.Trim(order.status)), answer.state);
    }
  }

  /** What is recorded when it does not match: the first of these that applies. */
  lemma MismatchKind(order: Order, answer: Answer)
    requires Verdict(order, answer).Some?
    ensures Verdict(order, answer) == Some(
              if answer.NoAnswer? then (ExchangeOrderMissing, Alert)
              else if answer.state.PendingCancel? then (UnknownExchangeState, Alert)
              else if order.status == "SUBMIT_REQUESTED" && order.hasAck then (AckWithoutStatus, UpdateLocalStatus)
              else if Spells(Text.ToAsciiUpper(Text.Trim(order.status)), Canceled) then (CancelNotConfirmed, Alert)
              else (StatusMismatch, UpdateLocalStatus))
  {
    hide NormalizeName, LocalStatus, Text.Trim, Text.ToAsciiUpper;
    if Mappable(answer) {
      LocalStatusIsNormal(answer.state);
      CanceledIsSpelled(Text.ToAsciiUpper(Text.Trim(order.status)));
    }
    if answer.Status? {
      MappableHasStatus(answer);
    }
  }

  lemma CanceledIsSpelled(name: string)
    ensures NormalizeName(name) == Some(NCancelled) <==> Spells(name, Canceled)
  {
  }

  lemma MappableHasStatus(answer: Answer)
    requires answer.Status?
    ensures LocalStatus(answer.state).Some? <==> Mappable(answer)
  {
  }

  /** Letter by letter, small or capital, somewhere in the message. */
  ghost predicate Says(message: string, words: string) {
    exists i: nat :: SaysAt(message, words, i)
  }

  ghost predicate SaysAt(message: string, words: string, i: nat) {
    i + |words| <= |message| && forall j :: 0 <= j < |words| ==> Text.SameLetter(words[j], message[i + j])
  }

  lemma ContainsWhenSaid(message: string, words: string)
    requires forall j :: 0 <= j < |words| ==> !('A' <= words[j] <= 'Z')
    ensures Text.Contains(Text.ToAsciiLower(message), words) <==> Says(message, words)
  {
    hide Text.Contains, Text.SameLetter, Text.LowerChar;
    var lower := Text.ToAsciiLower(message);
    Text.ContainsIffOccurs(lower, words);
    forall i: nat
      ensures Text.OccursAt(words, lower, i) <==> SaysAt(message, words, i)
    {
      OccursWhenSaid(message, words, i);
    }
  }

  lemma OccursWhenSaid(message: string, words: string, i: nat)
    requires forall j :: 0 <= j < |words| ==> !('A' <= words[j] <= 'Z')
    ensures Text.OccursAt(words, Text.ToAsciiLower(message), i) <==> SaysAt(message, words, i)
  {
    hide Text.SameLetter, Text.LowerChar;
    var lower := Text.ToAsciiLower(message);
    if i + |words| <= |message| {
      forall j | 0 <= j < |words|
        ensures lower[i..i + |words|][j] == words[j] <==> Text.SameLetter(words[j], message[i + j])
      {
        Text.LowerIsSameLetter(message[i + j], words[j]);
      }
    }
  }

  /** An order is missing when the exchange's own error says so, in words or by its code; any other error ends the pass. */
  lemma MissingIff(error: ExchangeError)
    ensures IsOrderMissing(error)
            <==> error.Api? && (Says(error.message, "order does not exist") || Says(error.message, "-2013"))
  {
    hide Text.Contains, Text.ToAsciiLower, Says;
    if error.Api? {
      ContainsWhenSaid(error.message, "order does not exist");
      ContainsWhenSaid(error.message, "-2013");
    }
  }

  /** Every record of a pass is the verdict on the order it names, with the status that order had before. */
  lemma {:induction false} RecordsAreVerdicts(orders: map<string, Order>, ids: seq<string>, answers: string -> Answer)
    requires forall id :: id in ids ==> id in orders
    ensures forall m :: m in Recorded(orders, ids, answers) ==>
              && m.clientOrderId in ids && m.localStatus == orders[m.clientOrderId].status
              && Verdict(orders[m.clientOrderId], answers(m.clientOrderId)) == Some((m.kind, m.action))
    ensures forall id :: id in ids && Verdict(orders[id], answers(id)).Some? ==>
              exists m :: m in Recorded(orders, ids, answers) && m.clientOrderId == id
    decreases |ids|
  {
    hide Verdict;
    if ids != [] {
      var k := |ids| - 1;
      RecordsAreVerdicts(orders, ids[..k], answers);
      var before, all := Recorded(orders, ids[..k], answers), Recorded(orders, ids, answers);
      forall id | id in ids && Verdict(orders[id], answers(id)).Some?
        ensures exists m :: m in all && m.clientOrderId == id
      {
        if id in ids[..k] {
          var m :| m in before && m.clientOrderId == id;
          assert m in all;
        } else {
          assert all[|before|].clientOrderId == id;
        }
      }
    }
  }

  // ---------------------------------------------------------------------------------------------
  // The lifecycle in words

  /** A name that is read as a state other than FAILED is that state's name. */
  lemma NamesAreRead(name: string)
    ensures !StateOfName(name).FailedState? ==> StateName(StateOfName(name)) == name
  {
  }

  lemma LastNamesAreRead()
    ensures StateOfName("UNKNOWN_EXCHANGE_STATE").UnknownExchange? && StateName(FailedState) == "FAILED"
  {
  }

  /** The lifecycle state that each state of the exchange stands for. */
  lemma RestNames(state: ExchangeOrderState)
    ensures StateName(RestState(state)) ==
            match state
            case New => "NEW"
            case PartiallyFilled => "PARTIALLY_FILLED"
            case Filled => "FILLED"
            case Canceled => "CANCELLED"
            case PendingCancel => "CANCEL_REQUESTED"
            case Rejected => "REJECTED"
            case Expired => "EXPIRED"
  {
  }

  /** From each lifecycle state, the exchange's states a pass does not accept. */
  predicate Refused(previous: string, state: ExchangeOrderState) {
    if previous == "EXCHANGE_ACKED" || previous == "RECONCILIATION_REQUIRED" then false
    else if previous == "NEW" then state.New?
    else if previous == "PARTIALLY_FILLED" then state.New? || state.Rejected?
    else if previous == "CANCEL_REQUESTED" then
      state.New? || state.PendingCancel? || state.Rejected? || state.Expired?
    else if previous == "ORDER_SUBMIT_REQUESTED" then state.Canceled?
    else if previous == "INTENT_CREATED" || previous == "RISK_APPROVED" || previous == "ORDER_PREPARED" then
      !state.Rejected?
    else true
  }

  /** The same of the states the names stand for. */
  predicate RefusedFrom(previous: ExecutionState, state: ExchangeOrderState) {
    match previous
    case ExchangeAcked => false
    case ReconciliationRequired => false
    case NewState => state.New?
    case PartiallyFilledState => state.New? || state.Rejected?
    case CancelRequested => state.New? || state.PendingCancel? || state.Rejected? || state.Expired?
    case OrderSubmitRequested => state.Canceled?
    case IntentCreated => !state.Rejected?
    case RiskApproved => !state.Rejected?
    case OrderPrepared => !state.Rejected?
    case _ => true
  }

  lemma AcceptedUnlessRefused(previous: ExecutionState, state: ExchangeOrderState)
    ensures AcceptsTransition(previous, RestState(state)) <==> !RefusedFrom(previous, state)
  {
  }

  lemma NamesRefuseAlike(name: string, state: ExchangeOrderState)
    ensures Refused(name, state) <==> RefusedFrom(StateOfName(name), state)
  {
  }

  /**
   * The lifecycle state a pass stores: that of the exchange, unless the stored one, trimmed and in capitals, refuses it.
   * A terminal, failed or unknown state, or a name that is none, refuses everything.
   */
  lemma StoredStateInWords(executionState: string, state: ExchangeOrderState)
    ensures StoredState(executionState, state)
            == if Refused(Text.ToAsciiUpper(Text.Trim(executionState)), state) then "RECONCILIATION_REQUIRED"
               else StateName(RestState(state))
  {
    hide AcceptsTransition, RestState, StateName, StateOfName, Refused, RefusedFrom, Text.Trim, Text.ToAsciiUpper;
    AcceptedUnlessRefused(ParseState(executionState), state);
    NamesRefuseAlike(Text.ToAsciiUpper(Text.Trim(executionState)), state);
  }
}
