/** Symbols, candle intervals and strategies as they are read from requests. */
module Market {
  import opened Wrappers
  import Text

  /** A symbol is trimmed, upper-cased and not empty. */
  function NewSymbol(value: string): Option<string> {
    var symbol := Text.ToAsciiUpper(Text.Trim(value));
    if symbol == "" then None else Some(symbol)
  }

  predicate IntervalName(name: string) {
    name == "1m" || name == "5m" || name == "15m" || name == "1h" || name == "4h"
  }

  /** The canonical name of an interval, read without regard to case or surrounding blanks. */
  function ParseInterval(value: string): Option<string> {
    var name := Text.ToAsciiLower(Text.Trim(value));
    if IntervalName(name) then Some(name) else None
  }

  /**
   * A symbol in its normal form, in characters: not empty, without blanks at its ends or small letters, and a slice of
   * what was requested with only blanks outside it, each letter the same or its capital.
   */
  ghost predicate NormalFormOf(symbol: string, requested: string) {
    && symbol != "" && symbol[0] !in Text.BLANKS && symbol[|symbol| - 1] !in Text.BLANKS
    && (forall i :: 0 <= i < |symbol| ==> !('a' <= symbol[i] <= 'z'))
    && (exists from: nat :: CapitalizedSlice(symbol, requested, from))
  }

  ghost predicate CapitalizedSlice(symbol: string, requested: string, from: nat) {
    && from + |symbol| <= |requested|
    && (forall i :: 0 <= i < |requested| && !(from <= i < from + |symbol|) ==> requested[i] in Text.BLANKS)
    && (forall i :: 0 <= i < |symbol| ==> SameOrCapital(symbol[i], requested[from + i]))
  }

  predicate SameOrCapital(c: char, requested: char) {
    if 'a' <= requested <= 'z' then 'A' <= c <= 'Z' && c as int - 'A' as int == requested as int - 'a' as int
    else c == requested
  }

  lemma CapitalIsNoBlank(c: char, requested: char)
    requires SameOrCapital(c, requested)
    ensures c in Text.BLANKS <==> requested in Text.BLANKS
  {
    Text.BlanksAreWhitespace(c);
    Text.BlanksAreWhitespace(requested);
    hide Text.BLANKS;
  }

  lemma CapitalsAreCapitals(s: string, i: nat)
    requires i < |s|
    ensures SameOrCapital(Text.ToAsciiUpper(s)[i], s[i])
    ensures !('a' <= Text.ToAsciiUpper(s)[i] <= 'z')
  {
  }

  /** A symbol read from a request is its normal form; a request of nothing but blanks has none. */
  lemma NewSymbolIsNormalForm(requested: string)
    ensures NewSymbol(requested).Some? ==> NormalFormOf(NewSymbol(requested).value, requested)
    ensures NewSymbol(requested).None? <==> forall i :: 0 <= i < |requested| ==> requested[i] in Text.BLANKS
  {
    hide Text.Trim, Text.BLANKS, SameOrCapital, Text.ToAsciiUpper;
    var trimmed := Text.Trim(requested);
    var symbol := Text.ToAsciiUpper(trimmed);
    var from := Text.TrimIsSlice(requested);
    forall i | 0 <= i < |symbol|
      ensures SameOrCapital(symbol[i], requested[from + i]) && !('a' <= symbol[i] <= 'z')
      ensures symbol[i] in Text.BLANKS <==> trimmed[i] in Text.BLANKS
    {
      CapitalsAreCapitals(trimmed, i);
      CapitalIsNoBlank(symbol[i], trimmed[i]);
      assert trimmed[i] == requested[from..from + |trimmed|][i];
    }
    if symbol != "" {
      assert CapitalizedSlice(symbol, requested, from);
      assert trimmed[0] == requested[from];
    }
  }

  /** A text has only one normal form. */
  lemma NormalFormIsUnique(a: string, b: string, requested: string)
    requires NormalFormOf(a, requested) && NormalFormOf(b, requested)
    ensures a == b
  {
    hide SameOrCapital, Text.BLANKS;
    var i: nat :| CapitalizedSlice(a, requested, i);
    var j: nat :| CapitalizedSlice(b, requested, j);
    CapitalIsNoBlank(a[0], requested[i]);
    CapitalIsNoBlank(b[0], requested[j]);
    CapitalIsNoBlank(a[|a| - 1], requested[i + |a| - 1]);
    CapitalIsNoBlank(b[|b| - 1], requested[j + |b| - 1]);
    assert i == j && |a| == |b|;
    forall k | 0 <= k < |a|
      ensures a[k] == b[k]
    {
      OneCapital(a[k], b[k], requested[i + k]);
    }
  }

  lemma OneCapital(a: char, b: char, requested: char)
    requires SameOrCapital(a, requested) && SameOrCapital(b, requested)
    ensures a == b
  {
  }

  predicate Blank(text: string) { forall i :: 0 <= i < |text| ==> text[i] in Text.BLANKS }

  lemma BlankTextIsEmpty(text: string)
    ensures Text.Trim(text) == "" <==> Blank(text)
  {
    hide Text.Trim, Text.BLANKS;
    NewSymbolIsNormalForm(text);
    assert |Text.ToAsciiUpper(Text.Trim(text))| == |Text.Trim(text)|;
  }

  lemma SymbolNormalForm(value: string)
    ensures NewSymbol(value).Some? ==> NewSymbol(NewSymbol(value).value) == NewSymbol(value)
  {
    Text.UpperNormalForm(value);
  }

  lemma IntervalNormalForm(value: string)
    ensures ParseInterval(Text.ToAsciiLower(Text.Trim(value))) == ParseInterval(value)
  {
    Text.LowerNormalForm(value);
  }

  /** The five supported intervals. */
  lemma IntervalsInWords(value: string)
    ensures var name := Text.ToAsciiLower(Text.Trim(value));
            ParseInterval(value) == if name in ["1m", "5m", "15m", "1h", "4h"] then Some(name) else None
  {
    hide Text.ToAsciiLower, Text.Trim;
  }

  const STRATEGIES: seq<string> := [
    "momentum_v1", "volatility_breakout_v1", "trend_filter_momentum_v1", "trend_filter_momentum_v2",
    "volatility_breakout_v2", "volatility_compression_breakout_v1", "range_reversion_v1",
    "trend_pullback_continuation_v1", "failed_breakdown_reclaim_v1"]

  /** Strategies are read without regard to case or surrounding blanks too. */
  predicate KnownStrategy(value: string) { Text.ToAsciiLower(Text.Trim(value)) in STRATEGIES }

  lemma FirstStrategiesHaveNoColon(k: nat)
    requires k < 3
    ensures ':' !in STRATEGIES[k]
  {
  }

  lemma MiddleStrategiesHaveNoColon(k: nat)
    requires 3 <= k < 6
    ensures ':' !in STRATEGIES[k]
  {
  }

  lemma LastStrategiesHaveNoColon(k: nat)
    requires 6 <= k < |STRATEGIES|
    ensures ':' !in STRATEGIES[k]
  {
  }

  lemma StrategiesHaveNoColon(k: nat)
    requires k < |STRATEGIES|
    ensures ':' !in STRATEGIES[k]
  {
    if k < 3 {
      FirstStrategiesHaveNoColon(k);
    } else if k < 6 {
      MiddleStrategiesHaveNoColon(k);
    } else {
      LastStrategiesHaveNoColon(k);
    }
  }

  /** However a strategy is spelled in a request, it has no colon. */
  lemma KnownStrategyHasNoColon(value: string)
    requires KnownStrategy(value)
    ensures ':' !in value
  {
    hide STRATEGIES, Text.Trim, Text.ToAsciiLower;
    var k :| 0 <= k < |STRATEGIES| && STRATEGIES[k] == Text.ToAsciiLower(Text.Trim(value));
    StrategiesHaveNoColon(k);
    if ':' in value {
      Text.LowerTrimKeepsChar(value, ':');
    }
  }

  /** The nine known strategies, and no other. */
  lemma StrategiesInWords(value: string)
    ensures var name := Text.ToAsciiLower(Text.Trim(value));
            KnownStrategy(value) <==>
            || name == "momentum_v1" || name == "volatility_breakout_v1" || name == "trend_filter_momentum_v1"
            || name == "trend_filter_momentum_v2" || name == "volatility_breakout_v2"
            || name == "volatility_compression_breakout_v1" || name == "range_reversion_v1"
            || name == "trend_pullback_continuation_v1" || name == "failed_breakdown_reclaim_v1"
  {
    hide Text.ToAsciiLower, Text.Trim;
  }
}
