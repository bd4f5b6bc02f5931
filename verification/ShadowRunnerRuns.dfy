/** Every run of ticks, control actions and configuration changes of the shadow runner, each one atomic step. */
module ShadowRunnerRuns {
  import opened Wrappers
  import opened ShadowRunner
  import Text

  datatype Step =
    | Tick(mode: Mode, outcomes: RunOutcomes, startedAt: Time, completedAt: Time)
    | Control(action: ControlAction)
    | Configure(input: Config)
    | Overwrite(config: Config)

  /** An executed tick, and the bound it ran under. */
  datatype Executed = Executed(tick: TickResult, maxRuns: nat)

  datatype World = World(config: Config, state: State, executed: seq<Executed>)

  function Apply(w: World, step: Step): World {
    match step
    case Tick(mode, outcomes, startedAt, completedAt) =>
      World(w.config,
            AfterTick(w.config, w.state, mode, outcomes, startedAt, completedAt),
            if Executes(w.config, w.state, mode)
            then w.executed + [Executed(TickOf(w.config, w.state, mode, outcomes), MaxRuns(w.config))]
            else w.executed)
    case Control(action) => w.(state := AfterControl(w.state, action))
    case Configure(input) => if Acceptable(input) then w.(config := Normalized(input)) else w
    case Overwrite(config) => w.(config := config)
  }

  function MaxRuns(c: Config): nat { if c.maxRunsPerTick > 0 then c.maxRunsPerTick else 0 }

  function Run(w: World, steps: seq<Step>): World {
    if steps == [] then w else Apply(Run(w, steps[..|steps| - 1]), steps[|steps| - 1])
  }

  // ---------------------------------------------------------------------------------------------
  // Counters

  function CompletedRuns(executed: seq<Executed>): nat {
    if executed == [] then 0 else CompletedRuns(executed[..|executed| - 1]) + executed[|executed| - 1].tick.completed
  }

  function Bounds(executed: seq<Executed>): nat {
    if executed == [] then 0 else Bounds(executed[..|executed| - 1]) + executed[|executed| - 1].maxRuns
  }

  predicate TickAddsUp(e: Executed) {
    && e.tick.attempted == e.tick.completed + e.tick.failed
    && 0 < e.tick.attempted <= e.maxRuns <= 0x7FFF_FFFF
    && (e.tick.status.Completed? <==> e.tick.failed == 0)
    && (e.tick.status.Failed? <==> e.tick.completed == 0)
    && !e.tick.status.NoOp?
  }

  /** A tick that executes attempts at least one run and at most its bound, so its 32-bit counters never overflow. */
  lemma ExecutedTickAddsUp(c: Config, s: State, mode: Mode, outcomes: RunOutcomes)
    requires Executes(c, s, mode)
    ensures TickAddsUp(Executed(TickOf(c, s, mode, outcomes), MaxRuns(c)))
    ensures TickOf(c, s, mode, outcomes).attempted <= |c.strategies| * |c.symbols|
  {
    hide BoundedPairs, FailuresOf;
    AtMostOneFailureEach(BoundedPairs(c), outcomes);
    PairsAreCounted(c);
    SomeStrategy(c.strategies);
    SomeProduct(|c.strategies|, |c.symbols|);
  }

  lemma SomeStrategy(values: seq<string>)
    ensures NormalStrategies(values) != [] ==> values != []
  {
  }

  lemma SomeProduct(a: nat, b: nat)
    requires a > 0 && b > 0
    ensures a * b > 0
  {
  }

  ghost predicate Counted(w: World) {
    && w.state.totalTicks == |w.executed|
    && w.state.totalRuns == CompletedRuns(w.executed) <= Bounds(w.executed)
    && (forall k :: 0 <= k < |w.executed| ==> TickAddsUp(w.executed[k]))
    && (w.state.lastTickAt.Some? <==> w.executed != [])
  }

  lemma StepKeepsCounted(w: World, step: Step)
    requires Counted(w)
    ensures Counted(Apply(w, step))
  {
    hide Acceptable, ExecutedTick, Normalized, IssuesOf;
    if step.Tick? && Executes(w.config, w.state, step.mode) {
      ExecutedTickAddsUp(w.config, w.state, step.mode, step.outcomes);
      var next := Apply(w, step);
      assert next.executed[..|w.executed|] == w.executed;
    }
  }

  /**
   * In every run the runner's totals are exact: ticks counts the executed ones, and runs the completed runs of those,
   * which never exceed the sum of the bounds they were executed under.
   */
  lemma {:induction false} TotalsAreExact(config: Config, steps: seq<Step>)
    ensures Counted(Run(World(config, FRESH_STATE, []), steps))
    decreases |steps|
  {
    hide Apply;
    if steps != [] {
      TotalsAreExact(config, steps[..|steps| - 1]);
      StepKeepsCounted(Run(World(config, FRESH_STATE, []), steps[..|steps| - 1]), steps[|steps| - 1]);
    }
  }

  // ---------------------------------------------------------------------------------------------
  // Who may start the runner

  predicate NeverOverwritten(steps: seq<Step>) { forall k :: 0 <= k < |steps| ==> !steps[k].Overwrite? }

  predicate NeverStarted(steps: seq<Step>) {
    forall k :: 0 <= k < |steps| ==> !(steps[k].Control? && (steps[k].action.Start? || steps[k].action.Resume?))
  }

  /** Configurations stored through the API are acceptable, so a tick never finds a bad one and never sets ERROR. */
  lemma {:induction false} ApiKeepsRunnerSound(w: World, steps: seq<Step>)
    requires Acceptable(w.config) && !w.state.status.Errored? && NeverOverwritten(steps)
    ensures Acceptable(Run(w, steps).config) && !Run(w, steps).state.status.Errored?
    decreases |steps|
  {
    hide Acceptable, ExecutedTick, Normalized, IssuesOf;
    if steps != [] {
      var before, last := Run(w, steps[..|steps| - 1]), steps[|steps| - 1];
      ApiKeepsRunnerSound(w, steps[..|steps| - 1]);
      if last.Configure? && Acceptable(last.input) {
        NormalizedIsAcceptable(last.input);
      }
    }
  }

  /** What a fresh database starts from. */
  const DEFAULT_CONFIG := Config(false, 60, ["momentum_v1"], ["BTCUSDT"], "1m", 1)

  lemma DefaultConfigIsAcceptable()
    ensures Acceptable(DEFAULT_CONFIG)
    ensures forall state :: !Executes(DEFAULT_CONFIG, state, Scheduled)
    ensures forall state :: Executes(DEFAULT_CONFIG, state, ManualRunOnce)
    ensures BoundedPairs(DEFAULT_CONFIG) == [("momentum_v1", "BTCUSDT")] && DEFAULT_CONFIG.intervalSeconds == 60
            && DEFAULT_CONFIG.maxRunsPerTick == 1 && DEFAULT_CONFIG.timeframe == "1m"
  {
    hide Text.Trim;
    assert ["momentum_v1"][..0] == [] && ["BTCUSDT"][..0] == [];
    Text.TrimKeepsText("momentum_v1", 0);
    Text.TrimKeepsText("BTCUSDT", 0);
    Text.TrimmedIsFixed("1m");
    assert Text.ToAsciiLower("1m") == "1m";
  }

  /** So from a fresh database, with configurations stored through the API alone, ERROR is never set. */
  lemma FreshRunnerNeverErrs(steps: seq<Step>)
    requires NeverOverwritten(steps)
    ensures var end := Run(World(DEFAULT_CONFIG, FRESH_STATE, []), steps);
            Acceptable(end.config) && !end.state.status.Errored?
  {
    hide Acceptable;
    DefaultConfigIsAcceptable();
    ApiKeepsRunnerSound(World(DEFAULT_CONFIG, FRESH_STATE, []), steps);
  }

  /** Stopped stays stopped, and executes nothing on schedule, until someone starts it; manual ticks do not start it. */
  lemma {:induction false} StoppedRunnerStaysStopped(w: World, steps: seq<Step>, mode: Mode)
    requires Acceptable(w.config) && w.state.status.Stopped? && NeverOverwritten(steps) && NeverStarted(steps)
    ensures Run(w, steps).state.status.Stopped?
    ensures Executes(Run(w, steps).config, Run(w, steps).state, mode) <==> mode.ManualRunOnce?
    decreases |steps|
  {
    hide Acceptable, ExecutedTick, Normalized, IssuesOf;
    ApiKeepsRunnerSound(w, steps);
    if steps != [] {
      var last := steps[|steps| - 1];
      StoppedRunnerStaysStopped(w, steps[..|steps| - 1], mode);
      ApiKeepsRunnerSound(w, steps[..|steps| - 1]);
    }
  }

  /** Whether a tick met a stored configuration that does not validate. */
  predicate MetBadConfig(w: World, steps: seq<Step>) {
    steps != [] &&
    var before := steps[..|steps| - 1];
    (MetBadConfig(w, before) || (steps[|steps| - 1].Tick? && !Acceptable(Run(w, before).config)))
  }

  predicate NeverControlled(steps: seq<Step>) { forall k :: 0 <= k < |steps| ==> !steps[k].Control? }

  lemma {:induction false} StatusWithoutControls(w: World, steps: seq<Step>)
    requires NeverControlled(steps)
    ensures Run(w, steps).state.status == if MetBadConfig(w, steps) then Errored else w.state.status
    decreases |steps|
  {
    hide Acceptable, ExecutedTick, Normalized, IssuesOf;
    if steps != [] {
      StatusWithoutControls(w, steps[..|steps| - 1]);
    }
  }

  /**
   * When the stored configuration can also be written around the API, a stopped or paused runner executes scheduled
   * ticks, with no control action at all, exactly when some earlier tick met a configuration that does not validate
   * and the present one does and is enabled: that tick replaced the operator's status by ERROR, which does not hold
   * scheduled ticks back.
   */
  lemma BadConfigUnstopsRunnerIff(w: World, steps: seq<Step>)
    requires (w.state.status.Stopped? || w.state.status.Paused?) && NeverControlled(steps)
    ensures var end := Run(w, steps);
            Executes(end.config, end.state, Scheduled)
            <==> MetBadConfig(w, steps) && Acceptable(end.config) && end.config.enabled
  {
    hide Acceptable;
    StatusWithoutControls(w, steps);
  }

  /** The shortest such run: a bad configuration, any tick, a good configuration. */
  lemma StoppedRunnerRunsAgain(good: Config, bad: Config, tick: Step)
    requires Acceptable(good) && good.enabled && !Acceptable(bad) && tick.Tick?
    ensures var w := Run(World(good, FRESH_STATE, []), [Overwrite(bad), tick, Overwrite(good)]);
            w.state.status.Errored? && Executes(w.config, w.state, Scheduled)
  {
    hide Acceptable, IssuesOf;
    var start := World(good, FRESH_STATE, []);
    var steps := [Overwrite(bad), tick, Overwrite(good)];
    assert steps[..2] == [Overwrite(bad), tick] && steps[..2][..1] == [Overwrite(bad)] && steps[..2][..1][..0] == [];
    assert Run(start, steps[..2][..1][..0]) == start;
    assert Run(start, steps[..2][..1]).config == bad;
    assert Run(start, steps[..2]).state.status.Errored?;
  }
}
