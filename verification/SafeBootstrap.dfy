/** The safe set of monitoring jobs that bootstraps scheduled research. */
module SafeBootstrap {
  import opened Wrappers
  import Text
  import Market
  import RowMajor

  datatype Kind =
    | ProviderHealth | MarketDataQuality | AggregationStatus | CrossAssetMarketDataRefresh | DerivativesContextRefresh
    | CandidateShadowObserveOnce | CrossAssetCandidateShadowObserveOnce | ResearchBatch | ResearchCampaign
    | RegimeDiscovery | RobustnessMatrix | OperatorReport

  datatype Job = Job(name: string, kind: Kind, enabled: bool, intervalSeconds: int, maxRunsPerTick: int)

  datatype BootstrapError =
    | NoSymbols | EmptySymbol | UnsupportedInterval(name: string) | UnsafeKind(kind: Kind) | InvalidJob

  const EXCHANGE := "binance"
  const PROVIDER_HEALTH_SECONDS := 900
  const AGGREGATION_STATUS_SECONDS := 300
  const MARKET_DATA_QUALITY_SECONDS := 1800
  const OPERATOR_REPORT_SECONDS := 86400
  const DEFAULT_INTERVALS := ["1m", "5m", "15m", "1h"]

  predicate IsSafeMonitoringKind(kind: Kind) {
    kind.ProviderHealth? || kind.AggregationStatus? || kind.MarketDataQuality? || kind.OperatorReport?
  }

  // ---------------------------------------------------------------------------------------------
  // First occurrences

  /** The distinct elements of a sequence, each where it first occurs. */
  function Distinct(s: seq<string>): seq<string> {
    if s == [] then []
    else
      var before := Distinct(s[..|s| - 1]);
      if s[|s| - 1] in before then before else before + [s[|s| - 1]]
  }

  predicate AllDifferent(s: seq<string>) { forall i, j :: 0 <= i < j < |s| ==> s[i] != s[j] }

  predicate FirstAt(s: seq<string>, k: nat, x: string) { k < |s| && s[k] == x && forall j :: 0 <= j < k ==> s[j] != x }

  /** Its elements are all different, are those of the sequence, and keep the order of their first occurrences. */
  lemma {:induction false} DistinctKeepsFirstOccurrences(s: seq<string>)
    ensures AllDifferent(Distinct(s))
    ensures forall x :: x in Distinct(s) <==> x in s
    ensures forall a, b, i: nat, j: nat ::
              0 <= a < b < |Distinct(s)| && FirstAt(s, i, Distinct(s)[a]) && FirstAt(s, j, Distinct(s)[b]) ==> i < j
    decreases |s|
  {
    if s != [] {
      var before, last := s[..|s| - 1], s[|s| - 1];
      DistinctKeepsFirstOccurrences(before);
      assert s == before + [last];
      forall a, b, i: nat, j: nat | 0 <= a < b < |Distinct(s)| && FirstAt(s, i, Distinct(s)[a])
                                    && FirstAt(s, j, Distinct(s)[b])
        ensures i < j
      {
        assert Distinct(s)[a] in Distinct(before);
        FirstInPrefix(before, last, i, Distinct(s)[a]);
        if b < |Distinct(before)| {
          assert Distinct(s)[b] in Distinct(before);
          FirstInPrefix(before, last, j, Distinct(s)[b]);
        }
      }
    }
  }

  lemma FirstInPrefix(before: seq<string>, last: string, k: nat, x: string)
    requires x in before && FirstAt(before + [last], k, x)
    ensures FirstAt(before, k, x)
  {
    var n :| 0 <= n < |before| && before[n] == x;
    assert (before + [last])[n] == x;
    assert forall j :: 0 <= j < |before| ==> (before + [last])[j] == before[j];
  }

  // ---------------------------------------------------------------------------------------------
  // Normalization

  function ReadSymbols(values: seq<string>): Option<seq<string>> {
    if values == [] then Some([])
    else
      var before := ReadSymbols(values[..|values| - 1]);
      var last := Market.NewSymbol(values[|values| - 1]);
      if before.None? || last.None? then None else Some(before.value + [last.value])
  }

  /** Every requested interval in its canonical form, or the first that is not supported. */
  function ReadIntervals(values: seq<string>): Result<seq<string>, string> {
    if values == [] then Success([])
    else
      var before := ReadIntervals(values[..|values| - 1]);
      var last := Market.ParseInterval(values[|values| - 1]);
      if before.Failure? then before
      else if last.None? then Failure(values[|values| - 1])
      else Success(before.value + [last.value])
  }

  method NormalizeSymbols(requested: seq<string>, configured: seq<string>)
    returns (r: Result<seq<string>, BootstrapError>)
    ensures var raw := if requested == [] then configured else requested;
            r == if raw == [] then Failure(NoSymbols)
                 else if ReadSymbols(raw).None? then Failure(EmptySymbol)
                 else Success(Distinct(ReadSymbols(raw).value))
  {
    hide Market.NewSymbol;
    var raw := if requested == [] then configured else requested;
    if raw == [] {
      return Failure(NoSymbols);
    }
    var symbols: seq<string> := [];
    for i := 0 to |raw|
      invariant ReadSymbols(raw[..i]).Some? && symbols == Distinct(ReadSymbols(raw[..i]).value)
    {
      assert raw[..i + 1][..i] == raw[..i];
      var symbol := Market.NewSymbol(raw[i]);
      if symbol.None? {
        PrefixFails(raw, i);
        return Failure(EmptySymbol);
      }
      DistinctExtends(ReadSymbols(raw[..i]).value, symbol.value);
      if symbol.value !in symbols {
        symbols := symbols + [symbol.value];
      }
    }
    assert raw[..|raw|] == raw;
    r := Success(symbols);
  }

  lemma DistinctExtends(s: seq<string>, x: string)
    ensures Distinct(s + [x]) == if x in Distinct(s) then Distinct(s) else Distinct(s) + [x]
  {
    assert (s + [x])[..|s|] == s;
  }

  lemma {:induction false} PrefixFails(raw: seq<string>, i: nat)
    requires i < |raw| && Market.NewSymbol(raw[i]).None?
    ensures ReadSymbols(raw).None?
    decreases |raw|
  {
    if i < |raw| - 1 {
      PrefixFails(raw[..|raw| - 1], i);
    }
  }

  method NormalizeIntervals(requested: seq<string>) returns (r: Result<seq<string>, BootstrapError>)
    ensures var raw := if requested == [] then DEFAULT_INTERVALS else requested;
            r == match ReadIntervals(raw)
                 case Failure(name) => Failure(UnsupportedInterval(name))
                 case Success(intervals) => Success(Distinct(intervals))
  {
    hide Market.ParseInterval;
    var raw := if requested == [] then DEFAULT_INTERVALS else requested;
    var intervals: seq<string> := [];
    for i := 0 to |raw|
      invariant ReadIntervals(raw[..i]).Success? && intervals == Distinct(ReadIntervals(raw[..i]).value)
    {
      assert raw[..i + 1][..i] == raw[..i];
      var interval := Market.ParseInterval(raw[i]);
      if interval.None? {
        FirstBadInterval(raw, i);
        return Failure(UnsupportedInterval(raw[i]));
      }
      DistinctExtends(ReadIntervals(raw[..i]).value, interval.value);
      if interval.value !in intervals {
        intervals := intervals + [interval.value];
      }
    }
    assert raw[..|raw|] == raw;
    r := Success(intervals);
  }

  lemma {:induction false} FirstBadInterval(raw: seq<string>, i: nat)
    requires i < |raw| && ReadIntervals(raw[..i]).Success? && Market.ParseInterval(raw[i]).None?
    ensures ReadIntervals(raw) == Failure(raw[i])
    decreases |raw|
  {
    if i == |raw| - 1 {
    } else {
      assert raw[..|raw| - 1][..i] == raw[..i];
      FirstBadInterval(raw[..|raw| - 1], i);
    }
  }

  // ---------------------------------------------------------------------------------------------
  // The jobs

  function QualityName(symbol: string, interval: string): string {
    "market-data-quality-" + symbol + "-" + interval
  }

  function QualityJob(cell: (string, string), enable: bool): Job {
    Job(QualityName(cell.0, cell.1), MarketDataQuality, enable, MARKET_DATA_QUALITY_SECONDS, 1)
  }

  function FirstJobs(enable: bool): seq<Job> {
    [Job("provider-health-" + EXCHANGE, ProviderHealth, enable, PROVIDER_HEALTH_SECONDS, 1),
     Job("aggregation-status", AggregationStatus, enable, AGGREGATION_STATUS_SECONDS, 1)]
  }

  function QualityJobs(symbols: seq<string>, intervals: seq<string>, enable: bool, n: nat): seq<Job>
    requires n <= |symbols| * |intervals|
  {
    seq(n, i requires 0 <= i < n => QualityJob(RowMajor.Cell(symbols, intervals, i), enable))
  }

  function SafeJobs(symbols: seq<string>, intervals: seq<string>, enable: bool): seq<Job> {
    FirstJobs(enable) + QualityJobs(symbols, intervals, enable, |symbols| * |intervals|)
    + [Job("operator-report-daily", OperatorReport, enable, OPERATOR_REPORT_SECONDS, 1)]
  }

  /** Every kind is a research kind, so what can be wrong with a job is its name, its pace or its limit. */
  predicate Valid(job: Job) { Text.Trim(job.name) != "" && job.intervalSeconds > 0 && job.maxRunsPerTick > 0 }

  lemma QualityJobIsValid(cell: (string, string), enable: bool)
    ensures Valid(QualityJob(cell, enable)) && IsSafeMonitoringKind(QualityJob(cell, enable).kind)
  {
    assert QualityJob(cell, enable).name[0] == 'm';
    Text.TrimKeepsText(QualityJob(cell, enable).name, 0);
  }

  /** The guards at the end of the bootstrap never fail. */
  lemma SafeJobsAreSafe(symbols: seq<string>, intervals: seq<string>, enable: bool)
    ensures forall job :: job in SafeJobs(symbols, intervals, enable) ==> IsSafeMonitoringKind(job.kind) && Valid(job)
    ensures forall job :: job in SafeJobs(symbols, intervals, enable) ==>
              && job.kind in {ProviderHealth, AggregationStatus, MarketDataQuality, OperatorReport}
              && job.name != "" && job.intervalSeconds > 0 && job.maxRunsPerTick > 0
    ensures |SafeJobs(symbols, intervals, enable)| == 3 + |symbols| * |intervals|
  {
    hide Valid;
    forall job | job in SafeJobs(symbols, intervals, enable)
      ensures IsSafeMonitoringKind(job.kind) && Valid(job)
    {
      FixedJobsAreValid(enable);
      if job in QualityJobs(symbols, intervals, enable, |symbols| * |intervals|) {
        var i :| 0 <= i < |symbols| * |intervals|
                 && job == QualityJob(RowMajor.Cell(symbols, intervals, i), enable);
        QualityJobIsValid(RowMajor.Cell(symbols, intervals, i), enable);
      }
    }
  }

  lemma FixedJobsAreValid(enable: bool)
    ensures Valid(FirstJobs(enable)[0]) && Valid(FirstJobs(enable)[1])
    ensures Valid(Job("operator-report-daily", OperatorReport, enable, OPERATOR_REPORT_SECONDS, 1))
  {
    Text.TrimKeepsText(FirstJobs(enable)[0].name, 0);
    Text.TrimKeepsText(FirstJobs(enable)[1].name, 0);
    Text.TrimKeepsText("operator-report-daily", 0);
  }

  method BuildQualityJobs(symbols: seq<string>, intervals: seq<string>, enable: bool) returns (jobs: seq<Job>)
    ensures jobs == QualityJobs(symbols, intervals, enable, |symbols| * |intervals|)
  {
    hide QualityJob, QualityJobs;
    jobs := [];
    NoQualityJobs(symbols, intervals, enable);
    var width := |intervals|;
    for s := 0 to |symbols|
      invariant s * width <= |symbols| * width
      invariant jobs == QualityJobs(symbols, intervals, enable, s * width)
    {
      RowMajor.RowFits(s, |symbols|, width);
      for t := 0 to width
        invariant s * width + t <= |symbols| * width
        invariant jobs == QualityJobs(symbols, intervals, enable, s * width + t)
      {
        QualityJobsExtend(symbols, intervals, enable, s, t);
        jobs := jobs + [QualityJob((symbols[s], intervals[t]), enable)];
      }
    }
  }

  method BuildSafeBootstrapJobs(requestedSymbols: seq<string>, requestedIntervals: seq<string>, enable: bool,
                                configured: seq<string>) returns (r: Result<seq<Job>, BootstrapError>)
    ensures var rawSymbols := if requestedSymbols == [] then configured else requestedSymbols;
            var rawIntervals := if requestedIntervals == [] then DEFAULT_INTERVALS else requestedIntervals;
            r == if rawSymbols == [] then Failure(NoSymbols)
                 else if ReadSymbols(rawSymbols).None? then Failure(EmptySymbol)
                 else match ReadIntervals(rawIntervals)
                      case Failure(name) => Failure(UnsupportedInterval(name))
                      case Success(intervals) =>
                        Success(SafeJobs(Distinct(ReadSymbols(rawSymbols).value), Distinct(intervals), enable))
  {
    hide Valid, QualityJob, QualityJobs, ReadSymbols, ReadIntervals, Distinct, FirstJobs;
    var readSymbols := NormalizeSymbols(requestedSymbols, configured);
    if readSymbols.Failure? {
      return Failure(readSymbols.error);
    }
    var readIntervals := NormalizeIntervals(requestedIntervals);
    if readIntervals.Failure? {
      return Failure(readIntervals.error);
    }
    var symbols, intervals := readSymbols.value, readIntervals.value;
    var quality := BuildQualityJobs(symbols, intervals, enable);
    var jobs := FirstJobs(enable) + quality;
    jobs := jobs + [Job("operator-report-daily", OperatorReport, enable, OPERATOR_REPORT_SECONDS, 1)];
    SafeJobsAreSafe(symbols, intervals, enable);
    var refused := CheckJobs(jobs);
    match refused {
      case Some(e) => r := Failure(e);
      case None => r := Success(jobs);
    }
  }

  lemma NoQualityJobs(symbols: seq<string>, intervals: seq<string>, enable: bool)
    ensures 0 <= |symbols| * |intervals| && QualityJobs(symbols, intervals, enable, 0) == []
  {
  }

  method CheckJobs(jobs: seq<Job>) returns (refused: Option<BootstrapError>)
    ensures refused.None? <==> forall job :: job in jobs ==> IsSafeMonitoringKind(job.kind) && Valid(job)
  {
    hide Valid;
    for k := 0 to |jobs|
      invariant forall i :: 0 <= i < k ==> IsSafeMonitoringKind(jobs[i].kind) && Valid(jobs[i])
    {
      if !IsSafeMonitoringKind(jobs[k].kind) {
        return Some(UnsafeKind(jobs[k].kind));
      }
      if !Valid(jobs[k]) {
        return Some(InvalidJob);
      }
    }
    refused := None;
  }

  lemma QualityJobsExtend(symbols: seq<string>, intervals: seq<string>, enable: bool, s: nat, t: nat)
    requires s < |symbols| && t < |intervals|
    ensures var n := s * |intervals| + t;
            && n + 1 <= |symbols| * |intervals|
            && QualityJobs(symbols, intervals, enable, n + 1)
               == QualityJobs(symbols, intervals, enable, n) + [QualityJob((symbols[s], intervals[t]), enable)]
  {
    hide QualityJob;
    RowMajor.CellOfRow(symbols, intervals, s, t);
  }

  // ---------------------------------------------------------------------------------------------
  // Names

  /** An interval has no dash, so the last dash of a name separates it from the symbol, whatever the symbol holds. */
  lemma QualityNameSplits(s: string, i: string, t: string, j: string)
    requires Market.IntervalName(i) && Market.IntervalName(j) && QualityName(s, i) == QualityName(t, j)
    ensures s == t && i == j
  {
    var prefix := "market-data-quality-";
    var a, b := QualityName(s, i), QualityName(t, j);
    NoDash(i);
    NoDash(j);
    assert a[|a| - 1 - |i|] == '-' && b[|b| - 1 - |j|] == '-';
    assert a[|a| - |i|..] == i && b[|b| - |j|..] == j;
    assert a[|prefix|..|a| - 1 - |i|] == s && b[|prefix|..|b| - 1 - |j|] == t;
  }

  lemma NoDash(interval: string)
    requires Market.IntervalName(interval)
    ensures forall k :: 0 <= k < |interval| ==> interval[k] != '-'
  {
  }

  lemma {:induction false} IntervalsAreNames(values: seq<string>)
    ensures ReadIntervals(values).Success? ==> forall i :: i in ReadIntervals(values).value ==> Market.IntervalName(i)
    decreases |values|
  {
    if values != [] {
      IntervalsAreNames(values[..|values| - 1]);
    }
  }

  /** No two jobs of a bootstrap share a name. */
  lemma BootstrapNamesAreDistinct(symbols: seq<string>, rawIntervals: seq<string>, enable: bool, a: nat, b: nat)
    requires AllDifferent(symbols) && ReadIntervals(rawIntervals).Success?
    requires a < b < |SafeJobs(symbols, Distinct(ReadIntervals(rawIntervals).value), enable)|
    ensures var jobs := SafeJobs(symbols, Distinct(ReadIntervals(rawIntervals).value), enable);
            jobs[a].name != jobs[b].name
  {
    hide Distinct, ReadIntervals, SafeJobs, QualityName, Market.IntervalName;
    var intervals := Distinct(ReadIntervals(rawIntervals).value);
    IntervalsAreNames(rawIntervals);
    DistinctKeepsFirstOccurrences(ReadIntervals(rawIntervals).value);
    NameInitials(symbols, intervals, enable);
    if 2 <= a && b < |symbols| * |intervals| + 2 {
      QualityNamesDiffer(symbols, intervals, enable, a - 2, b - 2);
    }
  }

  lemma QualityNamesDiffer(symbols: seq<string>, intervals: seq<string>, enable: bool, i: nat, j: nat)
    requires AllDifferent(symbols) && AllDifferent(intervals)
    requires forall x :: x in intervals ==> Market.IntervalName(x)
    requires i < j < |symbols| * |intervals|
    ensures QualityJob(RowMajor.Cell(symbols, intervals, i), enable).name
            != QualityJob(RowMajor.Cell(symbols, intervals, j), enable).name
  {
    hide QualityName, Market.IntervalName, RowMajor.Cell;
    RowMajor.CellsAreDistinct(symbols, intervals, i, j);
    var x, y := RowMajor.Cell(symbols, intervals, i), RowMajor.Cell(symbols, intervals, j);
    CellIntervalIsName(symbols, intervals, i);
    CellIntervalIsName(symbols, intervals, j);
    if QualityName(x.0, x.1) == QualityName(y.0, y.1) {
      QualityNameSplits(x.0, x.1, y.0, y.1);
    }
  }

  /** The four kinds of job have names that start differently. */
  lemma NameInitials(symbols: seq<string>, intervals: seq<string>, enable: bool)
    ensures var jobs, n := SafeJobs(symbols, intervals, enable), |symbols| * |intervals|;
            && |jobs| == n + 3
            && jobs[0].name[..1] == "p" && jobs[1].name[..1] == "a" && jobs[n + 2].name[..1] == "o"
            && (forall k :: 2 <= k < n + 2 ==>
                  && jobs[k].name[..1] == "m"
                  && jobs[k] == QualityJob(RowMajor.Cell(symbols, intervals, k - 2), enable))
  {
    hide RowMajor.Cell;
  }

  lemma CellIntervalIsName(symbols: seq<string>, intervals: seq<string>, i: nat)
    requires i < |symbols| * |intervals| && forall x :: x in intervals ==> Market.IntervalName(x)
    ensures Market.IntervalName(RowMajor.Cell(symbols, intervals, i).1)
  {
  }

  /** Every job of a bootstrap, name, pace and all. */
  lemma JobsInWords(symbols: seq<string>, intervals: seq<string>, enable: bool, k: nat)
    requires k < |SafeJobs(symbols, intervals, enable)|
    ensures var n := |symbols| * |intervals|;
            var job := SafeJobs(symbols, intervals, enable)[k];
            && job.enabled == enable && job.maxRunsPerTick == 1
            && (k == 0 ==> job.name == "provider-health-binance" && job.kind.ProviderHealth? && job.intervalSeconds == 900)
            && (k == 1 ==> job.name == "aggregation-status" && job.kind.AggregationStatus? && job.intervalSeconds == 300)
            && (2 <= k < n + 2 ==>
                  var cell := RowMajor.Cell(symbols, intervals, k - 2);
                  && job.name == "market-data-quality-" + cell.0 + "-" + cell.1
                  && job.kind.MarketDataQuality? && job.intervalSeconds == 1800)
            && (k == n + 2 ==>
                  job.name == "operator-report-daily" && job.kind.OperatorReport? && job.intervalSeconds == 86400)
  {
    hide RowMajor.Cell;
  }

  /** Only the four kinds that monitor are safe, and only named jobs at a positive pace and limit are valid. */
  lemma GuardsInWords(job: Job)
    ensures IsSafeMonitoringKind(job.kind) <==> job.kind in {ProviderHealth, AggregationStatus, MarketDataQuality, OperatorReport}
    ensures Valid(job) <==> job.intervalSeconds >= 1 && job.maxRunsPerTick >= 1 && !Market.Blank(job.name)
  {
    hide Text.Trim, Market.Blank;
    Market.BlankTextIsEmpty(job.name);
  }

  /** Without any request the intervals are one, five and fifteen minutes and an hour. */
  lemma DefaultIntervalsInWords()
    ensures ReadIntervals(DEFAULT_INTERVALS) == Success(["1m", "5m", "15m", "1h"])
  {
    hide Market.ParseInterval, Market.IntervalName;
    LiteralInterval("1m");
    LiteralInterval("5m");
    LiteralInterval("15m");
    LiteralInterval("1h");
    assert ReadIntervals([]) == Success([]);
    assert [] + ["1m"] == ["1m"] && ["1m"] + ["5m"] == ["1m", "5m"];
    assert ["1m", "5m"] + ["15m"] == ["1m", "5m", "15m"] && ["1m", "5m", "15m"] + ["1h"] == DEFAULT_INTERVALS;
    ReadOneMore([], "1m");
    ReadOneMore(["1m"], "5m");
    ReadOneMore(["1m", "5m"], "15m");
    ReadOneMore(["1m", "5m", "15m"], "1h");
  }

  lemma ReadOneMore(names: seq<string>, name: string)
    requires ReadIntervals(names) == Success(names) && Market.ParseInterval(name) == Some(name)
    ensures ReadIntervals(names + [name]) == Success(names + [name])
  {
    assert (names + [name])[..|names|] == names;
  }

  lemma LiteralInterval(name: string)
    requires name in {"1m", "5m", "15m", "1h", "4h"}
    ensures Market.ParseInterval(name) == Some(name)
  {
    hide Text.Trim;
    Text.TrimmedIsFixed(name);
    IntervalIsLower(name);
  }

  lemma IntervalIsLower(name: string)
    requires Market.IntervalName(name)
    ensures Text.ToAsciiLower(name) == name
  {
    assert forall i :: 0 <= i < |name| ==> Text.LowerChar(name[i]) == name[i];
  }
}
