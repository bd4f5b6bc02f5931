/** The shadow runner's rules by the values they were written for: configurations, pairs, ticks and control actions. */
module RunnerInWords {
  import opened Wrappers
  import opened ShadowRunner
  import Text
  import Market
  import opened Positions

  // ---------------------------------------------------------------------------------------------
  // Configurations

  /** Some character is not blank. */
  ghost predicate HasText(s: string) { exists i :: 0 <= i < |s| && s[i] !in Text.BLANKS }

  lemma TextIsKept(s: string)
    ensures Text.ToAsciiLower(Text.Trim(s)) != "" <==> HasText(s)
    ensures Market.NewSymbol(s).Some? <==> HasText(s)
  {
    hide Text.Trim, Text.BLANKS;
    Market.NewSymbolIsNormalForm(s);
  }

  ghost predicate AnyText(values: seq<string>) { exists i :: 0 <= i < |values| && HasText(values[i]) }

  lemma AnyTextExtends(values: seq<string>)
    requires values != []
    ensures AnyText(values) <==> AnyText(values[..|values| - 1]) || HasText(values[|values| - 1])
  {
    hide HasText;
    var k := |values| - 1;
    assert forall i :: 0 <= i < k ==> values[..k][i] == values[i];
  }

  lemma {:induction false} SomeStrategyIff(values: seq<string>)
    ensures NormalStrategies(values) != [] <==> AnyText(values)
    decreases |values|
  {
    hide HasText, AnyText, Text.Trim, Text.ToAsciiLower;
    NoText();
    if values != [] {
      AnyTextExtends(values);
      SomeStrategyIff(values[..|values| - 1]);
      TextIsKept(values[|values| - 1]);
    }
  }

  lemma NoText()
    ensures !AnyText([])
  {
  }

  /** What the API accepts. */
  lemma AcceptableInWords(c: Config)
    ensures Acceptable(c) <==>
            && c.intervalSeconds >= 1 && c.maxRunsPerTick >= 1
            && AnyText(c.strategies)
            && c.symbols != [] && (forall i :: 0 <= i < |c.symbols| ==> HasText(c.symbols[i]))
            && Text.ToAsciiLower(Text.Trim(c.timeframe)) in ["1m", "5m", "15m", "1h", "4h"]
  {
    hide HasText, AnyText, Text.Trim, Text.ToAsciiLower, Market.NewSymbol, NormalStrategies;
    SomeStrategyIff(c.strategies);
    Market.IntervalsInWords(c.timeframe);
    forall i | 0 <= i < |c.symbols|
      ensures Market.NewSymbol(c.symbols[i]).Some? <==> HasText(c.symbols[i])
    {
      TextIsKept(c.symbols[i]);
    }
  }

  /** No blank at either end, no capitals, and otherwise what was configured. */
  ghost predicate SmallFormOf(name: string, requested: string) {
    && name != "" && name[0] !in Text.BLANKS && name[|name| - 1] !in Text.BLANKS
    && (forall i :: 0 <= i < |name| ==> !('A' <= name[i] <= 'Z'))
    && (exists from: nat :: SmallSlice(name, requested, from))
  }

  ghost predicate SmallSlice(name: string, requested: string, from: nat) {
    && from + |name| <= |requested|
    && (forall i :: 0 <= i < |requested| && !(from <= i < from + |name|) ==> requested[i] in Text.BLANKS)
    && (forall i :: 0 <= i < |name| ==> SameOrSmall(name[i], requested[from + i]))
  }

  predicate SameOrSmall(c: char, requested: char) {
    if 'A' <= requested <= 'Z' then 'a' <= c <= 'z' && c as int - 'a' as int == requested as int - 'A' as int
    else c == requested
  }

  lemma SmallIsSmall(s: string, i: nat)
    requires i < |s|
    ensures SameOrSmall(Text.ToAsciiLower(s)[i], s[i]) && !('A' <= Text.ToAsciiLower(s)[i] <= 'Z')
    ensures Text.ToAsciiLower(s)[i] in Text.BLANKS <==> s[i] in Text.BLANKS
  {
    Text.BlanksAreWhitespace(s[i]);
    Text.BlanksAreWhitespace(Text.ToAsciiLower(s)[i]);
    hide Text.BLANKS;
  }

  lemma NameIsSmallForm(requested: string)
    requires HasText(requested)
    ensures SmallFormOf(Text.ToAsciiLower(Text.Trim(requested)), requested)
  {
    hide Text.Trim, Text.ToAsciiLower, Text.BLANKS, SameOrSmall, HasText;
    var trimmed := Text.Trim(requested);
    var name := Text.ToAsciiLower(trimmed);
    TextIsKept(requested);
    var from := Text.TrimIsSlice(requested);
    forall i | 0 <= i < |name|
      ensures SameOrSmall(name[i], requested[from + i]) && !('A' <= name[i] <= 'Z')
      ensures name[i] in Text.BLANKS <==> trimmed[i] in Text.BLANKS
    {
      SmallIsSmall(trimmed, i);
      assert trimmed[i] == requested[from..from + |trimmed|][i];
    }
    assert SmallSlice(name, requested, from);
  }

  ghost predicate TextAt(values: seq<string>, at: seq<nat>) {
    forall k :: 0 <= k < |values| ==> (k in at <==> HasText(values[k]))
  }

  lemma TextAtExtends(values: seq<string>, before: seq<nat>)
    requires values != [] && Increasing(before, |values| - 1) && TextAt(values[..|values| - 1], before)
    ensures TextAt(values, if HasText(values[|values| - 1]) then before + [|values| - 1] else before)
  {
    hide HasText;
    var n := |values| - 1;
    IncreasingExtends(before, n);
    assert forall k :: 0 <= k < n ==> values[k] == values[..n][k];
  }

  lemma NothingAt()
    ensures Increasing([], 0) && TextAt([], [])
  {
  }

  /** The stored strategies are those configured with any text, in their order and in small letters. */
  lemma {:induction false} StoredStrategiesAreSmall(values: seq<string>) returns (at: seq<nat>)
    ensures Increasing(at, |values|) && TextAt(values, at) && |at| == |NormalStrategies(values)|
    ensures forall i :: 0 <= i < |at| ==> SmallFormOf(NormalStrategies(values)[i], values[at[i]])
    decreases |values|
  {
    hide HasText, Increasing, TextAt, SmallFormOf, Text.Trim, Text.ToAsciiLower;
    NothingAt();
    at := [];
    if values != [] {
      var n := |values| - 1;
      var before := StoredStrategiesAreSmall(values[..n]);
      IncreasingExtends(before, n);
      TextAtExtends(values, before);
      TextIsKept(values[n]);
      if HasText(values[n]) {
        NameIsSmallForm(values[n]);
        at := before + [n];
      } else {
        at := before;
      }
    }
  }

  /** What the API stores of an acceptable configuration. */
  lemma StoredConfigInWords(c: Config) returns (at: seq<nat>)
    requires Acceptable(c)
    ensures var stored := Normalized(c);
            && Increasing(at, |c.strategies|) && TextAt(c.strategies, at) && |at| == |stored.strategies|
            && (forall i :: 0 <= i < |at| ==> SmallFormOf(stored.strategies[i], c.strategies[at[i]]))
            && |stored.symbols| == |c.symbols|
            && (forall i :: 0 <= i < |c.symbols| ==> Market.NormalFormOf(stored.symbols[i], c.symbols[i]))
            && stored.timeframe in ["1m", "5m", "15m", "1h", "4h"] && SmallFormOf(stored.timeframe, c.timeframe)
            && stored == c.(strategies := stored.strategies, symbols := stored.symbols, timeframe := stored.timeframe)
  {
    hide HasText, Increasing, TextAt, SmallFormOf, Text.Trim, Text.ToAsciiLower, Market.NormalFormOf, Market.NewSymbol,
         Market.ParseInterval, NormalStrategies, NormalSymbols, Acceptable;
    AcceptableInWords(c);
    at := StoredStrategiesAreSmall(c.strategies);
    StoredSymbolsAreNormal(c.symbols);
    TextIsKept(c.timeframe);
    assert Text.ToAsciiLower(Text.Trim(c.timeframe)) != "";
    NameIsSmallForm(c.timeframe);
  }

  /** Every stored symbol is the normal form of the one configured in its place. */
  lemma {:induction false} StoredSymbolsAreNormal(values: seq<string>)
    requires forall i :: 0 <= i < |values| ==> HasText(values[i])
    ensures |NormalSymbols(values)| == |values|
    ensures forall i :: 0 <= i < |values| ==> Market.NormalFormOf(NormalSymbols(values)[i], values[i])
    decreases |values|
  {
    hide HasText, Market.NewSymbol, Market.NormalFormOf;
    if values != [] {
      var k := |values| - 1;
      StoredSymbolsAreNormal(values[..k]);
      TextIsKept(values[k]);
      Market.NewSymbolIsNormalForm(values[k]);
    }
  }

  lemma {:induction false} SymbolIssuesInWords(values: seq<string>)
    ensures forall issue :: issue in SymbolIssues(values)
              <==> issue.InvalidSymbol? && issue.value in values && !HasText(issue.value)
    decreases |values|
  {
    hide HasText, Market.NewSymbol;
    if values != [] {
      var k := |values| - 1;
      SymbolIssuesInWords(values[..k]);
      TextIsKept(values[k]);
      assert values == values[..k] + [values[k]];
    }
  }

  lemma {:induction false} NoSymbolsIff(values: seq<string>)
    ensures NormalSymbols(values) == [] <==> !AnyText(values)
    decreases |values|
  {
    hide HasText, AnyText, Market.NewSymbol;
    NoText();
    if values != [] {
      AnyTextExtends(values);
      NoSymbolsIff(values[..|values| - 1]);
      TextIsKept(values[|values| - 1]);
    }
  }

  /** What is reported of a configuration, issue by issue. */
  lemma IssuesInWords(c: Config)
    ensures IntervalNotPositive in IssuesOf(c) <==> c.intervalSeconds <= 0
    ensures MaxRunsNotPositive in IssuesOf(c) <==> c.maxRunsPerTick <= 0
    ensures NoStrategies in IssuesOf(c) <==> !AnyText(c.strategies)
    ensures NoSymbols in IssuesOf(c) <==> !AnyText(c.symbols)
    ensures BadTimeframe in IssuesOf(c)
            <==> Text.ToAsciiLower(Text.Trim(c.timeframe)) !in ["1m", "5m", "15m", "1h", "4h"]
    ensures forall value :: InvalidSymbol(value) in IssuesOf(c) <==> value in c.symbols && !HasText(value)
  {
    hide HasText, AnyText, Text.Trim, Text.ToAsciiLower, Market.ParseInterval, NormalStrategies, NormalSymbols, SymbolIssues;
    SomeStrategyIff(c.strategies);
    NoSymbolsIff(c.symbols);
    SymbolIssuesInWords(c.symbols);
    Market.IntervalNormalForm(c.timeframe);
    Market.IntervalsInWords(c.timeframe);
  }

  // ---------------------------------------------------------------------------------------------
  // Ticks

  /** A negative bound, read as an unsigned number, is close to the largest one and bounds nothing in practice. */
  lemma BoundAsUnsigned(n: Int32)
    ensures n >= 0 ==> AsUsize(n) == n
    ensures n < 0 ==> AsUsize(n) - n == 18446744073709551616
  {
  }

  /** The failures of a tick: the pair and the error of each run that failed, and of no other. */
  lemma {:induction false} FailuresInWords(pairs: seq<(string, string)>, outcomes: RunOutcomes, f: PairFailure)
    ensures f in FailuresOf(pairs, outcomes) <==> exists k: nat :: FailedAt(pairs, outcomes, k, f)
    decreases |pairs|
  {
    if pairs != [] {
      var n := |pairs| - 1;
      FailuresInWords(pairs[..n], outcomes, f);
      FailedBefore(pairs, outcomes, f);
      if f in FailuresOf(pairs[..n], outcomes) {
        var k: nat :| FailedAt(pairs[..n], outcomes, k, f);
        assert FailedAt(pairs, outcomes, k, f);
      } else if f in FailuresOf(pairs, outcomes) {
        assert FailedAt(pairs, outcomes, n, f);
      }
    }
  }

  lemma FailedBefore(pairs: seq<(string, string)>, outcomes: RunOutcomes, f: PairFailure)
    requires pairs != []
    ensures forall k: nat :: FailedAt(pairs[..|pairs| - 1], outcomes, k, f)
                             <==> FailedAt(pairs, outcomes, k, f) && k < |pairs| - 1
  {
  }

  ghost predicate FailedAt(pairs: seq<(string, string)>, outcomes: RunOutcomes, k: nat, f: PairFailure) {
    k < |pairs| && pairs[k] == (f.strategyId, f.symbol) && outcomes(k) == Some(f.error)
  }

  /** What a tick does to the runner: the status is the operator's unless the configuration is bad. */
  lemma TickInWords(c: Config, s: State, mode: Mode, outcomes: RunOutcomes, startedAt: Time, completedAt: Time)
    ensures var tick, after := TickOf(c, s, mode, outcomes), AfterTick(c, s, mode, outcomes, startedAt, completedAt);
            var held := mode.Scheduled? && (!c.enabled || s.status.Paused? || s.status.Stopped?);
            && tick.scheduled == mode.Scheduled?
            && (!Acceptable(c) ==>
                  && tick.status.Failed? && tick.attempted == tick.completed == tick.failed == 0
                  && tick.message == Some(InvalidConfig)
                  && after == s.(status := Errored, lastError := Some(ConfigIssues(IssuesOf(c)))))
            && (Acceptable(c) && held ==>
                  && tick.status.NoOp? && tick.attempted == tick.completed == tick.failed == 0 && after == s
                  && tick.message == Some(if !c.enabled then ConfigDisabled else RunnerIs(s.status)))
            && (Acceptable(c) && !held ==>
                  && !tick.status.NoOp? && tick.completed + tick.failed == tick.attempted
                  && after.status == s.status && after.lastTickAt == Some(startedAt)
                  && after.totalTicks == s.totalTicks + 1 && after.totalRuns == s.totalRuns + tick.completed
                  && after.lastSuccessAt == (if tick.failed == 0 || tick.completed > 0 then Some(completedAt)
                                             else s.lastSuccessAt)
                  && (tick.failed == 0 ==> after.lastError.None? && tick.message.None?)
                  && (tick.failed > 0 ==>
                        && after.lastError == Some(PairFailures(FailuresOf(BoundedPairs(c), outcomes)))
                        && tick.message == Some(RunFailures(FailuresOf(BoundedPairs(c), outcomes)))))
  {
    hide Acceptable, IssuesOf, BoundedPairs, FailuresOf;
    AtMostOneFailureEach(BoundedPairs(c), outcomes);
    PairsAreCounted(c);
  }

  // ---------------------------------------------------------------------------------------------
  // Control

  /** A control action sets the status, or nothing at all, and only starting and resuming clear the last error. */
  lemma ControlInWords(s: State, action: ControlAction)
    ensures var r := AfterControl(s, action);
            var takes := match action
                         case Start => true
                         case Stop => true
                         case Pause => s.status.Running?
                         case Resume => s.status.Paused? || s.status.Errored?;
            && (!takes ==> r == s)
            && (takes ==>
                  && r == s.(status := r.status, lastError := r.lastError)
                  && (r.status.Running? <==> action.Start? || action.Resume?)
                  && (r.status.Stopped? <==> action.Stop?) && (r.status.Paused? <==> action.Pause?)
                  && r.lastError == (if action.Start? || action.Resume? then None else s.lastError))
  {
  }

  /** Pausing and resuming a running runner brings it back, its last error apart. */
  lemma PauseThenResume(s: State)
    requires s.status.Running?
    ensures AfterControl(AfterControl(s, Pause), Resume) == s.(lastError := None)
  {
  }

  /** A fresh runner does nothing on schedule; by hand it runs the one pair of its default configuration. */
  lemma DefaultRunnerIsIdle()
    ensures var c := Config(false, 60, ["momentum_v1"], ["BTCUSDT"], "1m", 1);
            && NoOpReason(c, FRESH_STATE, Scheduled) == Some(ConfigDisabled)
            && NoOpReason(c, FRESH_STATE, ManualRunOnce).None?
            && BoundedPairs(c) == [("momentum_v1", "BTCUSDT")]
            && FRESH_STATE.status.Stopped? && FRESH_STATE.totalTicks == FRESH_STATE.totalRuns == 0
  {
  }
}
