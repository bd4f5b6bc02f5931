# Aegis trading core: accounting, scheduling, reconciliation and shadow evaluation

This project models the state machines at the centre of the trading service and proves what they keep over every run.
Check it with `dafny verify dfyconfig.toml`.

- **Paper accounting.** `Accounting` holds fills, closes, mark-to-market and the account summary, over exact reals.
  `Ledger` runs any interleaving of buys and closes on any number of positions and proves the ledger law; `PositionLaws`
  proves what lists of buys and split closes amount to. `PaperBook` is the service's account, position, fill and journal
  tables with the three operations that write them, `PaperBookRuns` proves what every run of those keeps,
  `RepeatedCloses` what the stored-summary query may answer when a position is closed again, and `StaleMarks` what
  marking a book that changed since it was read does to it. `PaperInWords` says, without those functions, what an
  operator's close answers.
- **Order pipeline.** `IdempotencyKeys` prints the key, `OrderPipeline` lets any number of runs race through look-up,
  insert, reload and booking while runs die and operators close positions, `OrderPipelineLaws` proves the guarantees,
  `SignalPurchases` says how often one signal is bought under the cooldown and signal-age rules, and `PipelineRunner` is
  one run as the service executes it.
- **Scheduled jobs.** `Backoff` is the saturating retry wait, `Jobs` the job row with claim, completion and operator
  control, `JobWorkers` several workers over one row, `JobRunner` one run and `JobTicks` one tick of the schedule.
  `SafeBootstrap` builds the monitoring jobs.
- **Reconciliation.** `Reconciliation` is the pass over stored testnet orders, `ReconciliationLaws` what passes count
  and where they converge, `ReconciliationListing` which orders a pass gets to see.
- **Shadow evaluation.** `ShadowOutcome` is the price resolver, candle check and classifier, `ShadowSignals` the
  deduplicated signals table, `ShadowRun` one observation with its gate, `ShadowLaws` the agreement of gate and
  classifier, `ShadowPlans` every plan in terms of what the run read. `ShadowRunner` and `ShadowRunnerRuns` are the
  runner's configuration, ticks and control actions, and `RunnerInWords` says what is accepted and what a tick leaves.
  `CandleEvidence` decides which scheduled observations of a candidate are credited.
- **Readiness.** `Readiness` builds a verdict from checks, warnings and blockers.
- `Text`, `Market`, `RowMajor`, `Positions`, `Sums` and `Wrappers` are shared.

Code that updates state in place is a class whose methods are proved against the specification functions; the laws are
proved about those functions. Times are integers, generated identifiers are counters or parameters, and every table
operation, tick and control action is one atomic step unless a module says otherwise. The constants, names, units and
branches the laws rest on are written out by lemmas of their own, beside the laws; most of these have names that end in
`InWords`.

What the proofs show about the code, beyond what it sets out to do:

- A buy's cost is booked twice, into the entry price and into realized PnL. The service passes zero costs, so its cash
  is conserved; in general it is conserved exactly when the accepted buys carried no cost in all.
- `docs/ARCHITECTURE.md:147-148` promises one order per idempotency key, and that is kept under every race
  (`SameOrderExactlyForSameParts`). Because the key contains the risk decision, and each run evaluates risk anew
  (`crates/risk-engine/src/lib.rs:515`), nothing is ever reused (`FreshDecisionsReuseNothing`). What keeps a signal from
  being bought twice are two risk rules (`crates/risk-engine/src/lib.rs:231-261`, `:391-428`): after the last trade it
  can be approved again exactly when it outlives the cooldown (`LaterApprovalIff`), which under the default 900 s
  cooldown and 5 s signal age it never does, so runs that take turns on a signal buy it at most once
  (`SerialRunsBuyASignalOnce`). Runs approved before the first of them stores its order race, and then all of them buy,
  under any limits (`RacingRunsBuyTwice`).
- The key is printed from the symbol as it was requested, the order stores its normal form (`crates/api/src/pipeline.rs:307`,
  `:369`), so two spellings of one symbol never share a key either.
- A repeated close reports the position's latest fill by date. The query leaves equal dates undecided, so it is sure to
  report the closing fill exactly when every other fill of the position is dated strictly before the close
  (`SureToReportFirstIff`). With the last stored of equally late fills, as modelled in `LatestFill`, none dated after it
  is enough (`RepeatedCloseReportsFirst`), and that is so in every run whose clock never steps back
  (`FirstCloseIsReported`). A buy dated later, by a clock that does or by another host's, is reported as the exit
  (`LateFillIsReportedAsTheExit`).
- Marking to market (`crates/api/src/main.rs:17713-17895`) reads the account and the open positions, and later writes
  their whole rows back. It loses nothing exactly when those rows were not traded in between (`MarkLosesNothingIff`). A
  position closed in between is opened again, what the close realized is gone from the account, and no request can close
  it any more, because its closing order is already stored (`MarkReopensIff`, `ReopenedPositionIsStuck`,
  `CloseWhileMarkingIsUndone`).
- Reconciliation settles local statuses in one pass, but the lifecycle state of an order that is not partly filled
  flips between the exchange's state and RECONCILIATION_REQUIRED on every further pass that lists it, terminal states
  included. The handler's default filter (`crates/api/src/main.rs:10930-10937`) lists ACKED, NEW and PARTIALLY_FILLED
  orders only, so with it a FILLED order is not listed again once its status has settled.
- The reconciliation listing takes the most recently updated orders up to a limit, and a pass updates what it lists. While
  the same orders match, every one of them is listed sooner or later exactly when they all fit the limit; otherwise the
  rest is never reconciled (`EveryOrderIsListedIff`).
- The completion of a run is computed from the row as it was claimed, so what changed since can be lost
  (`LostUpdateIff`). Of an operator's actions on a RUNNING row it undoes a pause of an enabled job or a resume of a
  disabled one unless the run's failure pauses the job anyway, counts on from failures that were reset when the run
  fails, and replaces a new definition that moved the switch, the pace, the count or the last failure
  (`ControlIsOverwrittenIff`). A pause or a disabling definition ends with the job enabled exactly when it was enabled
  at the claim and the run does not pause it (`DisabledRowIsEnabledIff`). Resuming a RUNNING row, or redefining it as
  enabled, also lets a second worker claim it, and then a failure can be lost (`ControlOfRunningRowOverlaps`,
  `ResumeOfRunningRowLosesAFailure`).
- A worker that dies between claim and completion, or whose completion fails unnoticed
  (`crates/api/src/scheduled_research.rs:619`), leaves the row claimed for good.
- A stored runner configuration that does not validate turns STOPPED and PAUSED into ERROR, which does not hold
  scheduled ticks back; configurations written through the API never get there.
- The evidence rule names RISK_REJECTED among the valid completed decisions, but the classifier gives that decision the
  status REJECTED, so it is never credited.
- Updating a candidate moves the watermark's window, so a candle can be credited again afterwards. No observation can
  repeat or go behind a credit exactly when the watermark covers every credit ever made (`NeverRepeatsIffCovered`), and
  credits increase for ever when every update is followed by a newer candle (`CreditsIncreaseForEver`).

## Model

| member | source | states |
|---|---|---|
| Accounting.DrawdownIsTheShareBelowPeak | crates/accounting/src/lib.rs:634-667 | The peak is the better of initial and current equity, the drawdown is exactly the share of it that is missing, and a price status is missing exactly when nothing is unrealized |
| Accounting.MarkPositionsToMarket | crates/accounting/src/lib.rs:530-592 | Marking keeps order, marks each position at its listed price or not at all, lists every unpriced symbol, and totals the unrealized PnL of all positions |
| Accounting.BuyValues | crates/accounting/src/lib.rs:106-184 | The whole of what an accepted buy leaves: the position at its old mark, its carried cost and unrealized PnL adding up to its quantity at that mark, and an account whose unrealized PnL is that of this position alone |
| Accounting.CloseValues | crates/accounting/src/lib.rs:254-319 | The same of a close: what remains is valued at the exit price, and it is closed exactly when nothing does |
| Accounting.MarkIsFirstListed | crates/accounting/src/lib.rs:530-592 | A marked position takes price and status from the first listed price of its symbol, and is missing one without |
| Accounting.MissingInOrder | crates/accounting/src/lib.rs:540-566 | The missing symbols are those of the positions left without a mark, in their order |
| Ledger.LedgerLaw | crates/accounting/src/lib.rs:100-319 | After any interleaving of buys and closes, marked equity is initial equity plus proceeds less fees, spend and a second count of buy costs, plus positions at mark or at carried cost |
| Ledger.CashConservedIffNoBuyCost | crates/accounting/src/lib.rs:119-184 | Cash is conserved exactly when accepted buys carried no cost in all |
| Ledger.PositionLaw | crates/accounting/src/lib.rs:106-303 | For each position, spend plus realized PnL is net proceeds plus carried cost, through every run |
| Ledger.AccountRealizedIsPositionsLessBuyCost | crates/accounting/src/lib.rs:173-183 | The account's realized PnL is that of all its positions less every buy cost |
| Ledger.BuyCostIsBookedTwice | crates/accounting/src/lib.rs:120-175 | A buy with a fee of 100 at an unmoved market costs the account 200 |
| Ledger.RejectedEventChangesNothing | crates/accounting/src/lib.rs:106-262 | A refused buy or close leaves account and positions as they were |
| Ledger.StepKeepsOthers | crates/accounting/src/lib.rs:100-319 | A buy or close of one position leaves every other position alone |
| PositionLaws.BuysAccumulate | crates/accounting/src/lib.rs:106-184 | Any list of positive buys is accepted; quantity, all-in cost and realized PnL accumulate exactly |
| PositionLaws.EntryPriceIsWeightedAverage | crates/accounting/src/lib.rs:119-156 | The entry price is everything paid, costs included, over everything bought |
| PositionLaws.EntryPriceStaysWithinFills | crates/accounting/src/lib.rs:119-156 | The entry price lies between the lowest and highest all-in fill price |
| PositionLaws.BuyOrderDoesNotMatter | crates/accounting/src/lib.rs:106-184 | Entry price, quantity and realized PnL are the same for every order of the fills |
| PositionLaws.SplitCloseIsOneClose | crates/accounting/src/lib.rs:254-319 | Partial closes at one price, each at its own time, have the whole outcome of one close of the sums at the last time, refusal included |
| PositionLaws.TwoClosesAreOne | crates/accounting/src/lib.rs:254-319 | Two closes in a row, each at its own time, are one at the second time |
| PositionLaws.BuyRefusedIff | crates/accounting/src/lib.rs:106-133 | A buy is refused exactly for a quantity, or a total, that is not positive, and by the name of the one that failed |
| PositionLaws.CloseRefusedIff | crates/accounting/src/lib.rs:254-270 | A close is refused exactly for a quantity that is not positive or not there |
| PositionLaws.MarketCloseOutcome | crates/accounting/src/lib.rs:321-470 | A market close succeeds exactly on an open non-empty position at a positive price with non-negative costs, names the first of these that fails, empties it with one fill of all of it, and reports the PnL both position and account gained |
| PaperBook.PaperTables.EnsureDefaultPaperAccount | crates/api/src/lib.rs:243-258 | The default account is created once with the default equity, and otherwise returned unchanged |
| PaperBook.PaperTables.PersistPaperFillAccounting | crates/api/src/lib.rs:260-330 | The tables after a filled order are the specified ones; a refused fill leaves at most a new account; over non-negative positions it succeeds exactly for a positive quantity; then the account adds up, on the unrealized PnL of the one position it touched, valued at its mark |
| PaperBook.PaperTables.ClosePaperPosition | crates/api/src/lib.rs:332-430 | Every branch of a close, its errors and its stored summary, with the whole new state |
| PaperBook.PaperTables.MarkToMarket | crates/api/src/main.rs:17713-17895 | Every open row marked, closed rows alone, and the account's equity and unrealized PnL rewritten, when nothing comes in between |
| PaperInWords.ConfirmationInWords | crates/api/src/lib.rs:42-55 | A close is confirmed by CLOSE, a blank and the normal form of the symbol, described character by character, and by nothing else |
| PaperInWords.UnknownCloseRefused | crates/api/src/lib.rs:339-358 | The two refusals that look at nothing but the request and the ids, exactly when they happen |
| PaperInWords.CloseInWords | crates/api/src/lib.rs:359-430 | The answer to every close request for a stored position, in terms of its rows, the price and its age: each refusal in its order, what a repeated close needs, and the whole summary of a sale |
| PaperInWords.DefaultAccountInWords | crates/api/src/lib.rs:34-34 | The default account starts at a million with nothing gained, and nothing else changes |
| PaperInWords.FillIsStoredOnce | crates/db/src/lib.rs:4212-4250 | A second fill for an order changes nothing of the stored one but its position |
| PaperBookRuns.RunKeepsInv | crates/api/src/lib.rs:260-430 | Every run keeps: open exactly while holding something, one open row per symbol, unique ids, and a closing fill and journal entry for each closed row |
| PaperBookRuns.RunKeepsValues | crates/api/src/lib.rs:260-430 | In every run, markings among its steps, the account adds up and each position is valued at its mark, or has gained nothing without one |
| PaperBookRuns.AtMostOneOpenPositionPerSymbol | crates/db/migrations/0008_paper_accounting.sql:37-39 | At most one open position per symbol in every run, by the operations alone |
| PaperBookRuns.ClosedPositionsAreFrozen | crates/api/src/lib.rs:344-428 | No later fill, close or undisturbed marking changes any field of a closed position |
| PaperBookRuns.RepeatedCloseChangesNothing | crates/api/src/lib.rs:344-380 | Closing a closed position again returns a stored summary and changes nothing |
| PaperBookRuns.RepeatedCloseReportsFirst | crates/db/src/lib.rs:4658-4713 | With the last stored of equally late fills, the repeated summary is the first one exactly when no fill of the position is dated after the close |
| PaperBookRuns.RepeatedCloseReportsFirstForever | crates/db/src/lib.rs:4658-4713 | It stays that one after any later operations |
| RepeatedCloses.SureToReportFirstIff | crates/db/src/lib.rs:4678-4689 | Every answer the query may give is the first summary exactly when all other fills are dated strictly before the close |
| RepeatedCloses.SureToReportFirstForever | crates/db/src/lib.rs:4678-4689 | Then every later answer is too, after any later operations |
| RepeatedCloses.FirstCloseIsReported | crates/db/src/lib.rs:4678-4689 | When operations come in the order of their times the first close is the one reported, after any later operations, and surely so when time passed before it |
| RepeatedCloses.LateFillIsReportedAsTheExit | crates/db/src/lib.rs:4678-4689 | A run from empty tables, with a clock that steps back, in which a later-dated buy is reported as the closing fill |
| PaperBookRuns.MarkedEquityIsConserved | crates/api/src/main.rs:17869-17895 | The equity a marking stores is initial equity plus cash moved plus the positions' value |
| StaleMarks.MarkLosesNothingIff | crates/api/src/main.rs:17754-17895 | A marking changes nothing that was traded exactly when every row it writes back is as it was read |
| StaleMarks.MarkReopensIff | crates/db/src/lib.rs:4118-4170 | It opens a closed position exactly when that was open at its reading |
| StaleMarks.ReopenedPositionIsStuck | crates/db/src/lib.rs:4748-4785 | A position closed while its book was marked is open for its old quantity, and no request can close it |
| StaleMarks.OverlappingMarkingsLoseNothing | crates/api/src/main.rs:17754-17895 | Markings that overlap only one another lose nothing |
| StaleMarks.CloseWhileMarkingIsUndone | crates/api/src/main.rs:17754-17895 | A run from empty tables: buy, read, close, write |
| PaperBookRuns.RunMovesCash | crates/api/src/lib.rs:260-430 | In every run, realized PnL less carried cost is exactly the cash moved |
| PaperBookRuns.CashIsConserved | crates/api/src/lib.rs:289-290 | With the zero costs the service passes, marked equity is initial equity plus cash moved plus the positions' value |
| IdempotencyKeys.KeyIdentifiesItsParts | crates/api/src/pipeline.rs:680-695 | Keys are equal exactly when all six parts are, if either the strategies or the symbols are free of colons |
| IdempotencyKeys.KeyInWords | crates/api/src/pipeline.rs:680-695 | The key as it is printed: six parts, colons between them, the side in lower case |
| IdempotencyKeys.ColonsOnBothSidesCollide | crates/api/src/pipeline.rs:680-695 | With a colon in one strategy and one symbol the printer collides; such a strategy is refused before a key is printed |
| IdempotencyKeys.FreshRiskDecisionsNeverCollide | crates/api/src/pipeline.rs:303-313 | Runs with different risk decisions never print one key |
| OrderPipeline.RunKeepsInv | crates/api/src/pipeline.rs:303-476 | Every interleaving of runs, deaths, closes and markings keeps orders, runs and bookings consistent |
| OrderPipeline.CreateStoresOrder | crates/db/src/lib.rs:1908-2073 | A successful insert stores one new order under a free key, in the normal form of its symbol, filled whole at its limit price, the close, for the approved notional |
| OrderPipelineLaws.StoredSymbolsAreNormal | crates/core/src/lib.rs:20-26 | In every run a stored order names a slice of the requested symbol with only blanks outside it, no blank at either end, and small letters made capital |
| OrderPipelineLaws.OrdersAreBookedAtMostOnce | crates/api/src/pipeline.rs:377-476 | No order is booked twice, and an order is booked exactly when its creating run finished |
| OrderPipelineLaws.BookingsSpendTheApprovedNotional | crates/api/src/pipeline.rs:365-375 | Each booking belongs to a finished run, for the normal form of its symbol, and takes exactly that run's approved notional out of cash |
| OrderPipelineLaws.OutcomesAreTrue | crates/api/src/pipeline.rs:326-476 | A reported order exists under the run's key, created by it or reused from another run; refusals name the failing check; a duplicate key without an order never happens |
| OrderPipelineLaws.SameOrderExactlyForSameParts | crates/api/src/pipeline.rs:303-437 | Two runs report one order exactly when all parts of their keys agree, whatever the symbols hold, and at most one of them created it |
| OrderPipelineLaws.FreshDecisionsReuseNothing | crates/risk-engine/src/lib.rs:514-531 | With a new risk decision per run nothing is reused and no insert collides |
| OrderPipelineLaws.RacingRunsBuyTwice | crates/api/src/pipeline.rs:303-313 | Two runs approved for one signal before either stores its order have two keys, store two orders and spend the notional twice, under any limits |
| OrderPipelineLaws.RunAlone | crates/api/src/pipeline.rs:303-476 | An approved run that nothing disturbs stores and books exactly one order |
| SignalPurchases.LaterApprovalIff | crates/risk-engine/src/lib.rs:231-428 | After the last trade a signal passes the cooldown and age rules at some later time exactly when it outlives the cooldown |
| SignalPurchases.ApprovesInWords | crates/risk-engine/src/lib.rs:231-428 | The two rules in microseconds: no trade within the cooldown, a close being a trade too, and a signal no older than it may be, both limits included |
| SignalPurchases.DefaultLimitsInWords | crates/core/src/lib.rs:7776-7790 | By default fifteen minutes and five seconds |
| SignalPurchases.DefaultCooldownOutlastsSignals | crates/core/src/lib.rs:7776-7790 | Under the default limits no signal does |
| SignalPurchases.NoApprovalAfterPurchase | crates/db/src/lib.rs:1712-1722 | Once anything was traded since a signal was stored, no further run of any continuation is approved for it |
| SignalPurchases.SerialRunsBuyASignalOnce | crates/api/src/pipeline.rs:205-303 | Over every run in which runs take turns on a signal, it is bought at most once |
| OrderPipelineLaws.FillsAreExactlyTheBookings | crates/db/src/lib.rs:4212-4250 | The fills of placed orders are the bookings, one row each, in order, with price and quantity |
| PipelineRunner.PaperPipeline.CreatePaperOrder | crates/db/src/lib.rs:1908-1997 | Invalid intents and taken keys change nothing; otherwise one order is stored |
| Market.KnownStrategyHasNoColon | crates/core/src/lib.rs:1533-1550 | However a strategy is spelled in a request, it has no colon |
| Market.StrategiesInWords | crates/core/src/lib.rs:1533-1550 | The nine known strategies, and no other |
| Market.NewSymbolIsNormalForm | crates/core/src/lib.rs:20-26 | What a symbol reads as, in characters, and that only blank text reads as none |
| Market.NormalFormIsUnique | crates/core/src/lib.rs:20-26 | That description fits one symbol only |
| Market.IntervalsInWords | crates/core/src/lib.rs:411-424 | The five supported intervals |
| PipelineRunner.PaperPipeline.RunPaperPipeline | crates/api/src/pipeline.rs:303-476 | Refused request, reuse, refusal or creation with the whole new state of orders and book; booking never fails after a creation; the order names the normal form of the requested symbol, in characters |
| Backoff.BackoffIsExact | crates/api/src/scheduled_research.rs:438-454 | The saturating wait is the intended one in unbounded integers for every failure count |
| Backoff.BackoffNeverShrinks | crates/api/src/scheduled_research.rs:438-454 | More failures never wait less, and waits stay between one second and the cap |
| Backoff.SumOfWaitsClosedForm | crates/api/src/scheduled_research.rs:438-454 | The uncapped waits add up in closed form |
| Jobs.CompletionSettles | crates/api/src/scheduled_research.rs:365-436 | Completing a claimed job leaves status, count, backoff, reasons and dates consistent, pauses exactly at the maximum, never enables a job, and makes it due its interval after this run, when the backoff ends, or never |
| Jobs.ListedRowIsClaimed | crates/db/src/research.rs:652-711 | What the due query lists can be claimed at once, and a claim changes nothing but the status |
| Jobs.WhoMayClaim | crates/db/src/research.rs:683-711 | By hand anything that is not running; by the schedule exactly what is on, ready and not waiting |
| Jobs.PauseHolds | crates/db/src/research.rs:713-743 | A paused row is neither listed nor claimed on schedule at any time, and keeps its count |
| Jobs.ResumeFrees | crates/db/src/research.rs:713-743 | A resumed row is listed exactly from then on, with the count it had |
| Jobs.ResetClears | crates/db/src/research.rs:796-831 | What a reset clears, and when the row is listed again, by the status it had |
| Jobs.RedefineReplaces | crates/db/src/research.rs:600-650 | A new definition is listed from its requested time or at once, exactly when it is enabled, and forgets every failure |
| JobWorkers.AtMostOneWorker | crates/db/src/research.rs:683-711 | While operators leave running rows alone, one worker at most holds the job, with the row itself as its snapshot |
| JobWorkers.NoLostUpdate | crates/api/src/scheduled_research.rs:542-633 | While operators leave running rows alone, the completion written from the snapshot is the one the current row gives, and its count is the trailing block of failures |
| JobWorkers.LostUpdateIff | crates/api/src/scheduled_research.rs:365-436 | In any world, the completion from a snapshot differs from that of the current row exactly when the snapshot is outdated in a field its outcome depends on |
| JobWorkers.ControlIsOverwrittenIff | crates/db/src/research.rs:745-794 | Which operator action on a running row, by kind and fields, the completion of the run overwrites |
| JobWorkers.DisabledRowIsEnabledIff | crates/db/src/research.rs:745-794 | When a completion enables a row the operator disabled |
| JobWorkers.PauseOfRunningRowIsUndone | crates/db/src/research.rs:745-794 | A run that ends with the paused job enabled and due again |
| JobWorkers.ResetOfRunningRowIsLost | crates/db/src/research.rs:745-831 | A run whose reset is lost: the next failure counts two instead of one |
| JobWorkers.ControlOfRunningRowOverlaps | crates/db/src/research.rs:600-743 | Which operator action on a running row lets a second worker claim it |
| JobWorkers.ResumeOfRunningRowLosesAFailure | crates/api/src/main.rs:22766-22880 | Resuming a running row makes two workers hold it and loses one of two failures |
| JobWorkers.UnattendedRunsAreSound | crates/api/src/scheduled_research.rs:365-436 | Unattended runs keep exclusion, the count, the meaning of every status and when a row at rest is due, and never enable a job |
| JobWorkers.RestingRowIsDue | crates/core/src/research.rs:405-413 | Once it has run, a row at rest is due exactly its interval after its last run, when its backoff ends, or never |
| JobWorkers.AutoPausedExactlyAtMaximum | crates/api/src/scheduled_research.rs:374-405 | The status of a row at rest is decided by its trailing failures: auto-paused, backing off, error or clean |
| JobWorkers.ScheduledRetryWaits | crates/db/src/research.rs:683-711 | A backing-off job is claimable on schedule exactly after the exact wait since its last run |
| JobWorkers.ScheduleStopsAtMaximum | crates/api/src/scheduled_research.rs:365-436 | Left to the schedule, a job never fails more often in a row than the policy allows |
| JobWorkers.AutoPauseIsFinal | crates/db/src/research.rs:652-711 | No scheduled step changes an auto-paused row |
| JobWorkers.CrashedClaimIsNeverReleased | crates/api/src/scheduled_research.rs:546-619 | A claim whose worker died is never released |
| JobWorkers.ResumedJobRepausesOnNextFailure | crates/api/src/main.rs:22766-22880 | A resumed auto-paused job pauses again on its next failure |
| JobRunner.JobTable.RunScheduledResearchJob | crates/api/src/scheduled_research.rs:499-646 | Refusals leave the row alone and record the right skip; a claimed run writes the completion of the claimed row; any failing database call leaves what was done by then |
| JobRunner.ReportInWords | crates/api/src/scheduled_research.rs:499-646 | What a run reports and records, by what its listing and the stored row said; a run by hand is refused only by one in progress |
| JobRunner.ThirdAttemptWaitsAfterTwoFailures | crates/api/src/scheduled_research.rs:438-490 | A first failure does not delay the next attempt; two failures do, exactly by the first wait |
| JobTicks.RunScheduledResearchTick | crates/api/src/scheduled_research.rs:456-490 | The counters and every row after a tick over the due jobs and their limits, runs that fail outside the recorder included |
| JobTicks.CountersInWords | crates/api/src/scheduled_research.rs:469-490 | Each counter as the number of runs with certain reports, partial successes among the completed ones |
| JobTicks.TickRunsAreCounted | crates/api/src/scheduled_research.rs:456-490 | Completed, failed and skipped runs add up to the limits of the due jobs |
| JobTicks.TicksKeepTheCount | crates/api/src/scheduled_research.rs:456-490 | The runs of a job in a tick are steps of one worker, so after any number of them its failure count is the trailing block of written failures and no run still holds it |
| JobTicks.TwoFailuresEndTheTick | crates/api/src/scheduled_research.rs:469-490 | After two reported failures in a row no later run of a short tick starts the job, whatever fails, and the row stays |
| SafeBootstrap.DistinctKeepsFirstOccurrences | crates/api/src/scheduled_research.rs:283-309 | Deduplication keeps the same elements, each once, in the order of first occurrence |
| SafeBootstrap.NormalizeSymbols | crates/api/src/scheduled_research.rs:270-290 | The distinct requested or configured symbols, or the first error |
| SafeBootstrap.NormalizeIntervals | crates/api/src/scheduled_research.rs:292-311 | The distinct requested or default intervals, or the first unsupported one |
| SafeBootstrap.BuildSafeBootstrapJobs | crates/api/src/scheduled_research.rs:152-246 | The job list in row-major order of symbols and intervals; the closing guards never refuse it |
| SafeBootstrap.SafeJobsAreSafe | crates/api/src/scheduled_research.rs:236-268 | Three plus symbols times intervals jobs, all valid, of a monitoring kind, switched as requested and limited to one run per tick |
| SafeBootstrap.JobsInWords | crates/api/src/scheduled_research.rs:165-234 | Every job by its place: name, kind and pace |
| SafeBootstrap.GuardsInWords | crates/api/src/scheduled_research.rs:236-268 | The four kinds that monitor, and the names, paces and limits that are valid |
| SafeBootstrap.DefaultIntervalsInWords | crates/api/src/scheduled_research.rs:292-311 | Without a request, one, five and fifteen minutes and an hour |
| SafeBootstrap.BootstrapNamesAreDistinct | crates/api/src/scheduled_research.rs:199-218 | No two jobs share a name, whatever characters the symbols hold |
| Reconciliation.OrderTable.ReconcileTestnetOrders | crates/api/src/exchange_reconcile.rs:134-343 | The order table, the mismatch records and the counters when a pass completes or a status cannot be fetched |
| Reconciliation.OrderTable.CompareAndStore | crates/api/src/exchange_reconcile.rs:142-237 | One answered order: the stored row, the record and the counters |
| Reconciliation.OrderTable.StoreStatus | crates/db/src/lib.rs:3318-3408 | The stored status, exchange id and lifecycle state, repaired when the transition is illegal |
| ReconciliationLaws.CountersAreExact | crates/api/src/exchange_reconcile.rs:134-343 | Matched plus mismatched is checked, records are the mismatches, unknown counts exactly two kinds of record |
| ReconciliationLaws.FailedPassCheckedThePrefix | crates/api/src/exchange_reconcile.rs:239-343 | A pass that fails to fetch a status has checked exactly the orders before it |
| ReconciliationLaws.MatchedIff | crates/api/src/exchange_reconcile.rs:508-584 | An order matches exactly when the exchange state maps and both sides normalize alike |
| ReconciliationLaws.MatchedExactlyWhenSpelled | crates/api/src/exchange_reconcile.rs:623-633 | An order matches exactly when its status, trimmed and in capitals, is one of the listed spellings of the exchange's state |
| ReconciliationLaws.MismatchKind | crates/api/src/exchange_reconcile.rs:508-584 | Which kind of mismatch and action is recorded otherwise, the first that applies |
| ReconciliationLaws.RecordsAreVerdicts | crates/api/src/exchange_reconcile.rs:134-343 | The records of a pass are exactly the verdicts on its mismatched orders, with the status each had before |
| ReconciliationLaws.MissingIff | crates/api/src/exchange_reconcile.rs:603-611 | An order counts as missing exactly when the exchange's own error says so, in words or by code, whatever the case |
| ReconciliationLaws.StatusAfterPass | crates/api/src/exchange_reconcile.rs:438-449 | The local status after a pass, by name, for each state of the exchange, pending cancels keeping theirs |
| ReconciliationLaws.OnePassSettles | crates/api/src/exchange_reconcile.rs:142-237 | After one pass a mappable order has the canonical status and matches |
| ReconciliationLaws.SecondPassFindsOnlyTheUnmappable | crates/api/src/exchange_reconcile.rs:142-237 | A second pass changes no local status and mismatches exactly the pending-cancel and missing orders |
| ReconciliationLaws.SecondPassCounts | crates/api/src/exchange_reconcile.rs:346-396 | The pass after a completed one counts exactly those orders as mismatched and unknown, and the others as matched |
| ReconciliationLaws.AcceptedUnlessRefused | crates/exchange/src/lib.rs:590-759 | Which states of the exchange each lifecycle state does not accept |
| ReconciliationLaws.StoredStateInWords | crates/db/src/lib.rs:3318-3408 | The stored lifecycle state, by name: that of the exchange, unless the one before refuses it |
| ReconciliationLaws.LifecycleStateAlternates | crates/exchange/src/lib.rs:590-759 | The lifecycle state after any number of passes: the two states alternate unless the order is partly filled |
| ReconciliationLaws.LifecycleFixedPointIff | crates/exchange/src/lib.rs:590-759 | A pass keeps the lifecycle state exactly when both sides say partly filled |
| ReconciliationListing.EveryPassListsTheSame | crates/db/src/lib.rs:3084-3131 | While the same orders match, every pass lists those the first one did |
| ReconciliationListing.EveryOrderIsListedIff | crates/db/src/lib.rs:3118-3131 | Every matching order is listed sooner or later exactly when all of them fit the limit |
| ShadowOutcome.ResolveShadowPrice | crates/api/src/testnet_shadow.rs:736-780 | A price exists exactly when a positive tick or close is at most the threshold old, in microseconds, the tick first |
| ShadowPlans.ResolvedPriceInWords | crates/api/src/testnet_shadow.rs:736-780 | The price a run trusts, with the age in microseconds |
| ShadowOutcome.RoundDp8IsClose | crates/api/src/testnet_shadow.rs:910 | Rounding to eight places moves a value by at most half of the last place, to a whole number of it, the even one when two are equally near |
| ShadowLaws.OpenGateDecides | crates/api/src/testnet_shadow.rs:855-951 | Behind an open gate it says what became of the signal |
| ShadowLaws.GateAndClassifierAgree | crates/api/src/testnet_shadow.rs:226-332 | The four decisions about a signal occur exactly when the strategy was evaluated |
| ShadowLaws.DefaultsNeverLeak | crates/api/src/testnet_shadow.rs:218-224 | Behind a shut gate no default or gathered value reaches the plan |
| ShadowLaws.ConfiguredNotionalIsNeverUsed | crates/api/src/testnet_shadow.rs:328-331 | The notional fallback never decides anything |
| ShadowLaws.FeedOnlyWarns | crates/api/src/testnet_shadow.rs:205-210 | Unless a live feed is required the feed never changes a decision |
| ShadowLaws.EvaluatedRunsHaveAFreshCandle | crates/api/src/testnet_shadow.rs:423-479 | Every evaluated run had enough candles, the last recent enough |
| ShadowLaws.ThresholdIsTheLooserLimit | crates/api/src/testnet_shadow.rs:369-382 | The price age limit is the looser of the two limits, at least a second and at most what 32 bits hold |
| ShadowLaws.WouldSubmitIff | crates/api/src/testnet_shadow.rs:782-951 | Exactly when a run would submit |
| ShadowLaws.WouldSubmitOrder | crates/api/src/testnet_shadow.rs:894-951 | The order has the signal's symbol and side, the approved notional, and a positive whole number of smallest quantities worth it within half of one, at a price no older than the looser of the two configured limits, one second at least |
| ShadowPlans.GateInWords | crates/api/src/testnet_shadow.rs:183-240 | The strategy is evaluated exactly when nothing stands in its way: switch, timeframe, required feed, enough and young enough candles |
| ShadowPlans.CandleBlockInWords | crates/api/src/testnet_shadow.rs:423-479 | What blocks on candles, with the ages in whole milliseconds, fractions dropped toward zero |
| ShadowPlans.FeedWarningInWords | crates/api/src/testnet_shadow.rs:384-394 | What an optional feed warns of |
| ShadowPlans.ShutGatePlan | crates/api/src/testnet_shadow.rs:782-853 | Behind a shut gate, the plan names the first obstacle and carries nothing else |
| ShadowPlans.NoSignalPlan | crates/api/src/testnet_shadow.rs:855-870 | Without a signal, the strategy's own reason and the warnings of the feed |
| ShadowPlans.RefusedPlan | crates/api/src/testnet_shadow.rs:872-892 | A refused signal, with the code of every rule that refused it, in order |
| ShadowPlans.StalePricePlan | crates/api/src/testnet_shadow.rs:894-930 | An approved signal without a price, or with one that buys less than the smallest quantity |
| ShadowPlans.SubmittedPlan | crates/api/src/testnet_shadow.rs:932-951 | An approved signal that would be submitted |
| ShadowPlans.ClassifierEdges | crates/api/src/testnet_shadow.rs:782-951 | The classifier by itself where no run gets: odd candle blocks, refusals without reasons, a missing notional |
| ShadowPlans.CodesSurvive | crates/api/src/testnet_shadow.rs:964-980 | The stored reason has the name of the risk rule's code |
| ShadowRun.PlanNamesItsSignal | crates/api/src/testnet_shadow.rs:316-332 | Every run is decided, the missing-notional error is unreachable, and a plan names signal and decision together |
| ShadowRun.ShadowService.RunTestnetShadowOnce | crates/api/src/testnet_shadow.rs:145-348 | One observation with its tables: the plan of the assessed row, the stored run, and every stored run naming the signal its risk decision is about |
| ShadowRun.ShadowService.PersistShadowResult | crates/api/src/testnet_shadow.rs:481-630 | A run is stored with the stabilized signal id, or not at all |
| ShadowSignals.StoredSignalIsTheAssessedOne | crates/api/src/testnet_shadow.rs:632-684 | The stored id exists, and is the assessed row's exactly when the generated id is that row's or no row's |
| ShadowSignals.FreshIdentifiersNameTheAssessedSignal | crates/db/src/lib.rs:10064-10172 | With unrepeated ids, any interleaving of inserts leaves the assessed signal named |
| ShadowSignals.InsertAllKeepsRows | crates/db/migrations/0005_strategy_signals.sql:70-78 | Deduplicating inserts keep ids and identities unique and every stored row |
| ShadowRunner.ValidateConfig | crates/api/src/testnet_shadow_runner.rs:45-109 | The issues found are exactly those of the configuration, none exactly when it is acceptable |
| ShadowRunner.NormalizedIsAcceptable | crates/api/src/testnet_shadow_runner.rs:134-168 | A stored configuration is acceptable and normalizing it again changes nothing |
| ShadowRunner.BoundedStrategySymbolPairs | crates/api/src/testnet_shadow_runner.rs:481-492 | Exactly the first pairs of the row-major product, up to the bound as an unsigned number |
| ShadowRunner.Runner.RunTick | crates/api/src/testnet_shadow_runner.rs:253-459 | The tick's result and the runner state after it, for bad configurations, no-ops and executed ticks |
| ShadowRunner.Runner.ApplyControlAction | crates/api/src/testnet_shadow_runner.rs:170-251 | Which control actions are accepted and what they leave |
| RunnerInWords.AcceptableInWords | crates/api/src/testnet_shadow_runner.rs:45-109 | What the API accepts, in characters |
| RunnerInWords.IssuesInWords | crates/api/src/testnet_shadow_runner.rs:45-109 | Each reported issue, exactly when it is |
| RunnerInWords.StoredConfigInWords | crates/api/src/testnet_shadow_runner.rs:45-168 | What is stored of an acceptable configuration: the strategies that have any text, in order and small letters, the normal form of every symbol, a supported timeframe, and the rest as it was |
| RunnerInWords.FailuresInWords | crates/api/src/testnet_shadow_runner.rs:341-381 | The failures of a tick are the pairs and errors of the runs that failed |
| RunnerInWords.TickInWords | crates/api/src/testnet_shadow_runner.rs:253-459 | What a tick does to the runner: bad configuration, held or executed, with its dates, totals and errors |
| RunnerInWords.ControlInWords | crates/api/src/testnet_shadow_runner.rs:170-251 | A control action sets the status or nothing, and only starting and resuming clear the last error |
| RunnerInWords.PauseThenResume | crates/api/src/testnet_shadow_runner.rs:170-251 | Pausing and resuming a running runner brings it back |
| ShadowRunnerRuns.ExecutedTickAddsUp | crates/api/src/testnet_shadow_runner.rs:341-381 | Attempted is completed plus failed, between one and the bound, and the status says which |
| ShadowRunnerRuns.TotalsAreExact | crates/api/src/testnet_shadow_runner.rs:397-413 | Totals are the executed ticks and their completed runs, within the sum of the bounds |
| ShadowRunnerRuns.ApiKeepsRunnerSound | crates/api/src/testnet_shadow_runner.rs:134-168 | From an acceptable configuration, with changes through the API alone, no tick ever sets ERROR |
| ShadowRunnerRuns.FreshRunnerNeverErrs | crates/db/src/lib.rs:2864-2890 | The default configuration and state are such a start |
| ShadowRunnerRuns.StoppedRunnerStaysStopped | crates/api/src/testnet_shadow_runner.rs:461-479 | A stopped runner executes only manual ticks until it is started |
| ShadowRunnerRuns.BadConfigUnstopsRunnerIff | crates/api/src/testnet_shadow_runner.rs:274-306 | With configurations written around the API, exactly when a stopped or paused runner ticks again by itself |
| ShadowRunnerRuns.StoppedRunnerRunsAgain | crates/api/src/testnet_shadow_runner.rs:274-306 | A three-step run in which it does |
| CandleEvidence.NeverRepeatsIffCovered | crates/api/src/scheduled_research.rs:1382-1410 | No later observation can repeat or go behind an earlier credit exactly when the watermark covers all of them, over all time or since any past time |
| CandleEvidence.ObservationInWords | crates/api/src/scheduled_research.rs:1382-1539 | When a scheduled observation runs and when its run is credited, against the watermark |
| CandleEvidence.LatestIsEvaluated | crates/db/src/research.rs:6410-6455 | The watermark is a candle that a linked run of the window evaluated |
| CandleEvidence.CreditsIncrease | crates/api/src/scheduled_research.rs:1491-1539 | While observations are linked to the candidate, credits of a window strictly increase over every run |
| CandleEvidence.CreditsIncreaseForEver | crates/api/src/scheduled_research.rs:1412-1414 | Over all windows credits strictly increase when observations are linked and every update is followed by a newer candle |
| CandleEvidence.CreditsFitTheCount | crates/db/src/research.rs:7055-7068 | Credits never outnumber the independent observations the summary counts |
| CandleEvidence.UnlinkedObservationRepeats | crates/db/src/research.rs:6410-6455 | An unlinked observation can be credited again |
| CandleEvidence.UpdatedCandidateCreditsAgain | crates/api/src/scheduled_research.rs:1412-1414 | A run in which the update lets the last candle be credited again |
| CandleEvidence.OnlySignalDecisionsCount | crates/api/src/scheduled_research.rs:1529-1539 | Completed evidence is exactly no-signal and would-submit runs |
| Readiness.ReadinessBuilder.PushCheck | crates/api/src/readiness.rs:1009-1038 | The report after a check |
| Readiness.ReadinessBuilder.FinalizeReadinessResult | crates/api/src/readiness.rs:876-920 | The verdict, capped score, blockers and warnings of the report |
| Readiness.ScoreExecutionReadiness | crates/core/src/lib.rs:5122-5133 | One hundred less the penalties of failed warnings, kept between 0 and 100 |
| Readiness.BlockersAreTheFailures | crates/api/src/readiness.rs:1023-1028 | Blockers are listed once each, exactly those of failed blocking checks |
| Readiness.BlockersInOrder | crates/api/src/readiness.rs:1023-1028 | Blockers stand in the order of their first report |
| Readiness.ChecksInWords | crates/api/src/readiness.rs:1009-1060 | The checks are those that were pushed, in their order and as they were |
| Readiness.WarningsInWords | crates/api/src/readiness.rs:876-920 | The warnings are exactly the failed checks that do not block, in their order |
| Readiness.RecommendationsInWords | crates/api/src/readiness.rs:1009-1028 | What is recommended is what a failed check or a bare recommendation asked for |
| Readiness.VerdictIsExact | crates/api/src/readiness.rs:889-906 | The verdict and the score in terms of what was pushed, at 3, 8 and 15 points for a low, medium or high warning |
| Readiness.ReadyMeansNothingBlocks | crates/api/src/readiness.rs:884-906 | Ready or degraded means no blocking check failed; a blocker caps the score at 40 |
| Readiness.MoreChecksNeverHelp | crates/api/src/readiness.rs:876-920 | More checks never improve a verdict or raise a score |
| Readiness.CheckOrderDoesNotMatter | crates/api/src/readiness.rs:876-920 | Verdict, score and set of blockers do not depend on the order of the checks |
| Readiness.BothVerdictsAgree | crates/core/src/lib.rs:5135-5157 | The library's verdict from the checks alone is the same |

## Left out

- `rust_decimal` precision and the rounding of NUMERIC columns: amounts are exact reals, except the rounding of a shadow quantity to eight places.
- Daily PnL, equity snapshots, journal amounts and price-status columns of tables other than positions.
- Races inside one table operation other than marking: a fill's or close's reading and rewriting of the account, and a runner tick overlapping a control action, are single steps.
- SQL, telemetry, audit logs, system events and JSON payloads; generated identifiers and clock readings are counters or parameters.
- Strategy evaluation and the risk rules other than the cooldown and the signal age: their results are arbitrary parameters.
- The parts of a pipeline run before its approved risk decision is stored; the side of the order, which the paper book always takes as long.
- The order insert's own check that the risk decision exists and is approved, which holds because the run stored it itself.
- Preconditions of a scheduled observation (candidate status, runner alignment): where they fail nothing is recorded.
- `PaperBook.UpsertFill`: a second fill for one order only moves the stored row, as the conflict clause does, although the position is bought again; the pipeline never books an order twice.
- `PaperBook.LatestFill`: of equally late fills the one stored last is taken, which the query may do (`ModelAnswerIsAllowed`); `RepeatedCloses` covers every choice it may make.
- `StaleMarks.MarkReopensIff`: a write that would open a second position of one symbol fails on the unique index and ends the marking midway; such half-written markings are not modelled.
- A failing database call inside a reconciliation pass, which ends it before any counter is stored.
- Reconciliation listings while orders start or stop matching the filter.
- A failed read of the last trade, which lets the cooldown rule pass, and the risk rules that do not look at times, which only refuse more.
- The direct order endpoint (`crates/api/src/main.rs:12102-12178`), which stores orders under a client's key, fills and books them.
- Candle continuity is a parameter; its summary is not modelled.
- The status filter of the reconciliation listing, its row limit and the run record.
- What the scheduled jobs do, and the comparison of table counts behind the isolation check, which is a parameter.
- Applying a bootstrap plan to existing jobs; job request payloads.
- The readiness checks themselves: which ones are pushed, with what outcome, is arbitrary.
- Dashboard, authentication, operator reports, market ingest, replay and the command line.
