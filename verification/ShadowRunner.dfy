/** The shadow runner: its configuration, its control actions and its ticks. */
module ShadowRunner {
  import opened Wrappers
  import Text
  import Market
  import RowMajor

  type Time = int

  type Int32 = x: int | -0x8000_0000 <= x <= 0x7FFF_FFFF

  datatype Config = Config(
    enabled: bool,
    intervalSeconds: Int32,
    strategies: seq<string>,
    symbols: seq<string>,
    timeframe: string,
    maxRunsPerTick: Int32)

  datatype Issue = IntervalNotPositive | MaxRunsNotPositive | NoStrategies | InvalidSymbol(value: string) | NoSymbols | BadTimeframe

  datatype Status = Stopped | Running | Paused | Errored

  datatype Mode = Scheduled | ManualRunOnce

  datatype PairFailure = PairFailure(strategyId: string, symbol: string, error: string)

  datatype Message = ConfigIssues(issues: seq<Issue>) | PairFailures(failures: seq<PairFailure>)

  datatype State = State(
    status: Status,
    lastTickAt: Option<Time>,
    lastSuccessAt: Option<Time>,
    lastError: Option<Message>,
    totalTicks: nat,
    totalRuns: nat)

  const FRESH_STATE := State(Stopped, None, None, None, 0, 0)

  datatype TickStatus = NoOp | Completed | PartialFailure | Failed

  datatype TickMessage = InvalidConfig | ConfigDisabled | RunnerIs(status: Status) | RunFailures(failures: seq<PairFailure>)

  datatype TickResult = TickResult(
    status: TickStatus,
    scheduled: bool,
    attempted: nat,
    completed: nat,
    failed: nat,
    message: Option<TickMessage>)

  // ---------------------------------------------------------------------------------------------
  // Configuration

  function NormalStrategies(values: seq<string>): seq<string> {
    if values == [] then []
    else
      var name := Text.ToAsciiLower(Text.Trim(values[|values| - 1]));
      NormalStrategies(values[..|values| - 1]) + if name == "" then [] else [name]
  }

  function NormalSymbols(values: seq<string>): seq<string> {
    if values == [] then []
    else
      var symbol := Market.NewSymbol(values[|values| - 1]);
      NormalSymbols(values[..|values| - 1]) + if symbol.None? then [] else [symbol.value]
  }

  function SymbolIssues(values: seq<string>): seq<Issue> {
    if values == [] then []
    else
      var last := values[|values| - 1];
      SymbolIssues(values[..|values| - 1]) + if Market.NewSymbol(last).None? then [InvalidSymbol(last)] else []
  }

  /** What a configuration has to be: some work to do, on usable names, at a positive pace. */
  predicate Acceptable(c: Config) {
    && c.intervalSeconds > 0 && c.maxRunsPerTick > 0
    && NormalStrategies(c.strategies) != []
    && c.symbols != [] && (forall i :: 0 <= i < |c.symbols| ==> Market.NewSymbol(c.symbols[i]).Some?)
    && Market.ParseInterval(c.timeframe).Some?
  }

  function Normalized(c: Config): Config {
    c.(strategies := NormalStrategies(c.strategies),
       symbols := NormalSymbols(c.symbols),
       timeframe := Text.ToAsciiLower(Text.Trim(c.timeframe)))
  }

  lemma {:induction false} NoSymbolIssuesIff(values: seq<string>)
    ensures SymbolIssues(values) == [] <==> forall i :: 0 <= i < |values| ==> Market.NewSymbol(values[i]).Some?
    ensures SymbolIssues(values) == [] ==> |NormalSymbols(values)| == |values|
    ensures NormalSymbols(values) == [] && SymbolIssues(values) == [] ==> values == []
    decreases |values|
  {
    hide Market.NewSymbol;
    if values != [] {
      NoSymbolIssuesIff(values[..|values| - 1]);
    }
  }

  function When(condition: bool, issue: Issue): seq<Issue> { if condition then [issue] else [] }

  function IssuesOf(c: Config): seq<Issue> {
    When(c.intervalSeconds <= 0, IntervalNotPositive) + When(c.maxRunsPerTick <= 0, MaxRunsNotPositive)
    + When(NormalStrategies(c.strategies) == [], NoStrategies) + SymbolIssues(c.symbols)
    + When(NormalSymbols(c.symbols) == [], NoSymbols)
    + When(Market.ParseInterval(Text.ToAsciiLower(Text.Trim(c.timeframe))).None?, BadTimeframe)
  }

  /** The list of issues is empty exactly for an acceptable configuration. */
  lemma NoIssuesIff(c: Config)
    ensures IssuesOf(c) == [] <==> Acceptable(c)
  {
    hide Text.Trim, Text.ToAsciiLower, Market.NewSymbol, Market.ParseInterval;
    NoSymbolIssuesIff(c.symbols);
    Market.IntervalNormalForm(c.timeframe);
  }

  method ReadSymbols(values: seq<string>) returns (symbols: seq<string>, issues: seq<Issue>)
    ensures symbols == NormalSymbols(values) && issues == SymbolIssues(values)
  {
    symbols, issues := [], [];
    for i := 0 to |values|
      invariant symbols == NormalSymbols(values[..i])
      invariant issues == SymbolIssues(values[..i])
    {
      assert values[..i + 1][..i] == values[..i];
      match Market.NewSymbol(values[i]) {
        case Some(value) => symbols := symbols + [value];
        case None => issues := issues + [InvalidSymbol(values[i])];
      }
    }
    assert values[..|values|] == values;
  }

  method ValidateConfig(input: Config) returns (issues: seq<Issue>, normalized: Option<Config>)
    ensures issues == IssuesOf(input) && (issues == [] <==> Acceptable(input))
    ensures normalized == if Acceptable(input) then Some(Normalized(input)) else None
  {
    hide Text.Trim, Text.ToAsciiLower, Market.ParseInterval, NormalStrategies, NormalSymbols, SymbolIssues, Acceptable;
    issues := [];
    if input.intervalSeconds <= 0 {
      issues := issues + [IntervalNotPositive];
    }
    if input.maxRunsPerTick <= 0 {
      issues := issues + [MaxRunsNotPositive];
    }
    var strategies := NormalStrategies(input.strategies);
    if strategies == [] {
      issues := issues + [NoStrategies];
    }
    assert issues == When(input.intervalSeconds <= 0, IntervalNotPositive)
                     + When(input.maxRunsPerTick <= 0, MaxRunsNotPositive) + When(strategies == [], NoStrategies);
    var symbols, symbolIssues := ReadSymbols(input.symbols);
    issues := issues + symbolIssues;
    if symbols == [] {
      issues := issues + [NoSymbols];
    }
    var timeframe := Text.ToAsciiLower(Text.Trim(input.timeframe));
    if Market.ParseInterval(timeframe).None? {
      issues := issues + [BadTimeframe];
    }
    NoIssuesIff(input);
    normalized := if issues == [] then Some(input.(strategies := strategies, symbols := symbols, timeframe := timeframe))
                  else None;
  }

  lemma {:induction false} StrategiesNormalForm(values: seq<string>)
    ensures NormalStrategies(NormalStrategies(values)) == NormalStrategies(values)
    decreases |values|
  {
    hide Text.Trim, Text.ToAsciiLower;
    if values != [] {
      var last := values[|values| - 1];
      var before, all := NormalStrategies(values[..|values| - 1]), NormalStrategies(values);
      StrategiesNormalForm(values[..|values| - 1]);
      Text.LowerNormalForm(last);
      if Text.ToAsciiLower(Text.Trim(last)) != "" {
        assert all[..|all| - 1] == before;
      } else {
        assert all == before;
      }
    }
  }

  lemma {:induction false} SymbolsNormalForm(values: seq<string>)
    ensures NormalSymbols(NormalSymbols(values)) == NormalSymbols(values)
    ensures forall i :: 0 <= i < |NormalSymbols(values)| ==> Market.NewSymbol(NormalSymbols(values)[i]).Some?
    decreases |values|
  {
    hide Market.NewSymbol;
    if values != [] {
      var last := values[|values| - 1];
      var before, all := NormalSymbols(values[..|values| - 1]), NormalSymbols(values);
      SymbolsNormalForm(values[..|values| - 1]);
      Market.SymbolNormalForm(last);
      if Market.NewSymbol(last).Some? {
        assert all[..|all| - 1] == before;
      } else {
        assert all == before;
      }
    }
  }

  /** Storing a configuration settles it: the stored form is acceptable, and storing it again changes nothing. */
  lemma NormalizedIsAcceptable(c: Config)
    requires Acceptable(c)
    ensures Acceptable(Normalized(c)) && Normalized(Normalized(c)) == Normalized(c)
  {
    hide Text.Trim, Text.ToAsciiLower, Market.NewSymbol, Market.ParseInterval;
    StrategiesNormalForm(c.strategies);
    SymbolsNormalForm(c.symbols);
    NoSymbolIssuesIff(c.symbols);
    Text.LowerNormalForm(c.timeframe);
    Market.IntervalNormalForm(c.timeframe);
  }

  // ---------------------------------------------------------------------------------------------
  // The bounded product

  function AsUsize(n: Int32): nat { if n < 0 then n + 0x1_0000_0000_0000_0000 else n }

  function PairCount(c: Config): nat {
    if |c.strategies| * |c.symbols| <= AsUsize(c.maxRunsPerTick) then |c.strategies| * |c.symbols|
    else AsUsize(c.maxRunsPerTick)
  }

  /** The i-th pair in row-major order: symbols vary fastest. */
  function PairAt(c: Config, i: nat): (string, string)
    requires i < |c.strategies| * |c.symbols|
  {
    RowMajor.Cell(c.strategies, c.symbols, i)
  }

  function BoundedPairs(c: Config): seq<(string, string)> {
    seq(PairCount(c), i requires 0 <= i < PairCount(c) => PairAt(c, i))
  }

  /** Exactly the first pairs of the row-major product, as many as there are or as the bound allows. */
  method BoundedStrategySymbolPairs(c: Config) returns (pairs: seq<(string, string)>)
    ensures pairs == BoundedPairs(c)
  {
    hide IsPrefixOfProduct, BoundedPairs, AsUsize;
    EmptyIsPrefix(c);
    var bound := AsUsize(c.maxRunsPerTick);
    var width := |c.symbols|;
    pairs := [];
    label outer: for s := 0 to |c.strategies|
      invariant |pairs| == s * width <= bound
      invariant IsPrefixOfProduct(pairs, c)
    {
      RowMajor.RowFits(s, |c.strategies|, width);
      for t := 0 to width
        invariant |pairs| == s * width + t <= bound
        invariant IsPrefixOfProduct(pairs, c)
      {
        if |pairs| >= bound {
          break outer;
        }
        ExtendPrefix(pairs, c, s, t);
        pairs := pairs + [(c.strategies[s], c.symbols[t])];
      }
    }
    PrefixIsBounded(pairs, c);
  }

  ghost predicate IsPrefixOfProduct(pairs: seq<(string, string)>, c: Config) {
    && |pairs| <= |c.strategies| * |c.symbols|
    && forall i :: 0 <= i < |pairs| ==> pairs[i] == PairAt(c, i)
  }

  lemma EmptyIsPrefix(c: Config)
    ensures IsPrefixOfProduct([], c)
  {
  }

  lemma ExtendPrefix(pairs: seq<(string, string)>, c: Config, s: nat, t: nat)
    requires s < |c.strategies| && t < |c.symbols|
    requires |pairs| == s * |c.symbols| + t && IsPrefixOfProduct(pairs, c)
    ensures IsPrefixOfProduct(pairs + [(c.strategies[s], c.symbols[t])], c)
  {
    RowMajor.CellOfRow(c.strategies, c.symbols, s, t);
  }

  lemma PrefixIsBounded(pairs: seq<(string, string)>, c: Config)
    requires IsPrefixOfProduct(pairs, c) && |pairs| <= AsUsize(c.maxRunsPerTick)
    requires |pairs| == AsUsize(c.maxRunsPerTick) || |pairs| == |c.strategies| * |c.symbols|
    ensures pairs == BoundedPairs(c)
  {
    hide AsUsize;
  }

  // ---------------------------------------------------------------------------------------------
  // Ticks

  /** How the i-th run of a tick ends: with nothing, or with an error. */
  type RunOutcomes = nat -> Option<string>

  function FailuresOf(pairs: seq<(string, string)>, outcomes: RunOutcomes): seq<PairFailure> {
    if pairs == [] then []
    else
      var k := |pairs| - 1;
      FailuresOf(pairs[..k], outcomes)
      + if outcomes(k).Some? then [PairFailure(pairs[k].0, pairs[k].1, outcomes(k).value)] else []
  }

  lemma {:induction false} AtMostOneFailureEach(pairs: seq<(string, string)>, outcomes: RunOutcomes)
    ensures |FailuresOf(pairs, outcomes)| <= |pairs|
    decreases |pairs|
  {
    if pairs != [] {
      AtMostOneFailureEach(pairs[..|pairs| - 1], outcomes);
    }
  }

  function NoOpReason(c: Config, s: State, mode: Mode): Option<TickMessage> {
    if mode.ManualRunOnce? then None
    else if !c.enabled then Some(ConfigDisabled)
    else if s.status.Paused? || s.status.Stopped? then Some(RunnerIs(s.status))
    else None
  }

  predicate Executes(c: Config, s: State, mode: Mode) { Acceptable(c) && NoOpReason(c, s, mode).None? }

  function StatusOf(attempted: nat, failed: nat): TickStatus {
    if failed == 0 then Completed else if failed < attempted then PartialFailure else Failed
  }

  /** What an executed tick reports. */
  function ExecutedTick(c: Config, mode: Mode, outcomes: RunOutcomes): TickResult {
    var failures := FailuresOf(BoundedPairs(c), outcomes);
    AtMostOneFailureEach(BoundedPairs(c), outcomes);
    TickResult(StatusOf(PairCount(c), |failures|), mode.Scheduled?, PairCount(c), PairCount(c) - |failures|, |failures|,
               if failures == [] then None else Some(RunFailures(failures)))
  }

  function AfterExecutedTick(s: State, tick: TickResult, startedAt: Time, completedAt: Time): State {
    s.(lastTickAt := Some(startedAt),
       lastSuccessAt := if tick.status.Failed? then s.lastSuccessAt else Some(completedAt),
       lastError := if tick.message.Some? && tick.message.value.RunFailures?
                    then Some(PairFailures(tick.message.value.failures)) else None,
       totalTicks := s.totalTicks + 1,
       totalRuns := s.totalRuns + tick.completed)
  }

  function TickOf(c: Config, s: State, mode: Mode, outcomes: RunOutcomes): TickResult {
    if !Acceptable(c) then TickResult(Failed, mode.Scheduled?, 0, 0, 0, Some(InvalidConfig))
    else if NoOpReason(c, s, mode).Some? then TickResult(NoOp, mode.Scheduled?, 0, 0, 0, NoOpReason(c, s, mode))
    else ExecutedTick(c, mode, outcomes)
  }

  function AfterTick(c: Config, s: State, mode: Mode, outcomes: RunOutcomes, startedAt: Time, completedAt: Time): State {
    if !Acceptable(c) then s.(status := Errored, lastError := Some(ConfigIssues(IssuesOf(c))))
    else if NoOpReason(c, s, mode).Some? then s
    else AfterExecutedTick(s, ExecutedTick(c, mode, outcomes), startedAt, completedAt)
  }

  datatype ControlAction = Start | Stop | Pause | Resume

  function AfterControl(s: State, action: ControlAction): State {
    match action
    case Start => s.(status := Running, lastError := None)
    case Stop => s.(status := Stopped)
    case Pause => if s.status.Running? then s.(status := Paused) else s
    case Resume => if s.status.Paused? || s.status.Errored? then s.(status := Running, lastError := None) else s
  }

  class Runner {
    var config: Config
    var state: State

    constructor (config: Config)
      ensures this.config == config && state == FRESH_STATE
    {
      this.config, state := config, FRESH_STATE;
    }

    method PersistConfig(input: Config) returns (stored: bool)
      modifies this`config
      ensures stored == Acceptable(input)
      ensures config == if stored then Normalized(input) else old(config)
    {
      var issues, normalized := ValidateConfig(input);
      stored := normalized.Some?;
      if stored {
        config := normalized.value;
      }
    }

    method RunTick(mode: Mode, outcomes: RunOutcomes, startedAt: Time, completedAt: Time) returns (tick: TickResult)
      modifies this`state
      ensures tick == TickOf(config, old(state), mode, outcomes)
      ensures state == AfterTick(config, old(state), mode, outcomes, startedAt, completedAt)
    {
      hide Acceptable, BoundedPairs, Normalized, IssuesOf;
      var issues, _ := ValidateConfig(config);
      if issues != [] {
        state := state.(status := Errored, lastError := Some(ConfigIssues(issues)));
        return TickResult(Failed, mode.Scheduled?, 0, 0, 0, Some(InvalidConfig));
      }
      var reason := NoOpReason(config, state, mode);
      if reason.Some? {
        return TickResult(NoOp, mode.Scheduled?, 0, 0, 0, reason);
      }
      var pairs := BoundedStrategySymbolPairs(config);
      var attempted, completed, failed := 0, 0, 0;
      var errors: seq<PairFailure> := [];
      while attempted < |pairs|
        invariant 0 <= attempted <= |pairs|
        invariant errors == FailuresOf(pairs[..attempted], outcomes)
        invariant failed == |errors| && completed + failed == attempted
      {
        assert pairs[..attempted + 1][..attempted] == pairs[..attempted];
        var (strategyId, symbol) := pairs[attempted];
        match outcomes(attempted) {
          case None =>
            completed := completed + 1;
          case Some(error) =>
            failed := failed + 1;
            errors := errors + [PairFailure(strategyId, symbol, error)];
        }
        attempted := attempted + 1;
      }
      assert pairs[..|pairs|] == pairs;
      PairsAreCounted(config);
      var status := if failed == 0 then Completed else if completed > 0 then PartialFailure else Failed;
      tick := TickResult(status, mode.Scheduled?, attempted, completed, failed,
                         if errors == [] then None else Some(RunFailures(errors)));
      state := state.(lastTickAt := Some(startedAt),
                      lastSuccessAt := if status.Failed? then state.lastSuccessAt else Some(completedAt),
                      lastError := if errors == [] then None else Some(PairFailures(errors)),
                      totalTicks := state.totalTicks + 1,
                      totalRuns := state.totalRuns + completed);
    }

    method ApplyControlAction(action: ControlAction) returns (accepted: bool)
      modifies this`state
      ensures state == AfterControl(old(state), action)
      ensures accepted == match action
                          case Start => true
                          case Stop => true
                          case Pause => old(state).status.Running?
                          case Resume => old(state).status.Paused? || old(state).status.Errored?
    {
      match action {
        case Start =>
          state := state.(status := Running, lastError := None);
          accepted := true;
        case Stop =>
          state := state.(status := Stopped);
          accepted := true;
        case Pause =>
          accepted := state.status.Running?;
          if accepted {
            state := state.(status := Paused);
          }
        case Resume =>
          accepted := state.status.Paused? || state.status.Errored?;
          if accepted {
            state := state.(status := Running, lastError := None);
          }
      }
    }
  }

  lemma PairsAreCounted(c: Config)
    ensures |BoundedPairs(c)| == PairCount(c)
  {
  }
}
