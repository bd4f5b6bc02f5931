/** The printed key that makes paper orders idempotent, and when it identifies what it was printed from. */
module IdempotencyKeys {
  import Text

  datatype Side = Buy | Sell

  datatype KeyParts = KeyParts(
    strategyId: string,
    signalId: string,
    riskDecisionId: string,
    symbol: string,
    side: Side,
    sourceCandleOpenTimeMs: int)

  function SideText(side: Side): string { if side.Buy? then "buy" else "sell" }

  function BuildIdempotencyKey(p: KeyParts): string {
    p.strategyId + ":" + p.signalId + ":" + p.riskDecisionId + ":" + p.symbol + ":" + SideText(p.side) + ":"
    + Text.IntText(p.sourceCandleOpenTimeMs)
  }

  predicate ColonFree(s: string) { ':' !in s }

  /** Identifiers print without colons. */
  predicate PlainIds(p: KeyParts) { ColonFree(p.signalId) && ColonFree(p.riskDecisionId) }

  /** A colon-free head ends at the first colon. */
  lemma FirstColonSplits(a: string, x: string, b: string, y: string)
    requires ColonFree(a) && ColonFree(b) && a + ":" + x == b + ":" + y
    ensures a == b && x == y
  {
    var s, t := a + ":" + x, b + ":" + y;
    assert s[|a|] == ':' && t[|b|] == ':';
    assert s[..|a|] == a && t[..|b|] == b && s[|a| + 1..] == x && t[|b| + 1..] == y;
  }

  /** A colon-free tail starts after the last colon. */
  lemma LastColonSplits(x: string, a: string, y: string, b: string)
    requires ColonFree(a) && ColonFree(b) && x + ":" + a == y + ":" + b
    ensures a == b && x == y
  {
    var s, t := x + ":" + a, y + ":" + b;
    var n := |s|;
    assert s[n - 1 - |a|] == ':' && t[n - 1 - |b|] == ':';
    assert s[..n - 1 - |a|] == x && t[..n - 1 - |b|] == y && s[n - |a|..] == a && t[n - |b|..] == b;
  }

  /** The side and the candle time can always be read off the end of a key. */
  lemma TailSplits(x: string, a: KeyParts, y: string, b: KeyParts)
    requires x + ":" + SideText(a.side) + ":" + Text.IntText(a.sourceCandleOpenTimeMs)
             == y + ":" + SideText(b.side) + ":" + Text.IntText(b.sourceCandleOpenTimeMs)
    ensures x == y && a.side == b.side && a.sourceCandleOpenTimeMs == b.sourceCandleOpenTimeMs
  {
    Text.IntTextHasNoColon(a.sourceCandleOpenTimeMs);
    Text.IntTextHasNoColon(b.sourceCandleOpenTimeMs);
    LastColonSplits(x + ":" + SideText(a.side), Text.IntText(a.sourceCandleOpenTimeMs),
                    y + ":" + SideText(b.side), Text.IntText(b.sourceCandleOpenTimeMs));
    Text.IntTextInjective(a.sourceCandleOpenTimeMs, b.sourceCandleOpenTimeMs);
    LastColonSplits(x, SideText(a.side), y, SideText(b.side));
    assert SideText(Buy) != SideText(Sell);
  }

  function Head(p: KeyParts): string { p.strategyId + ":" + p.signalId + ":" + p.riskDecisionId + ":" + p.symbol }

  lemma HeadSplitsFromTheLeft(a: KeyParts, b: KeyParts)
    requires PlainIds(a) && PlainIds(b) && ColonFree(a.strategyId) && ColonFree(b.strategyId) && Head(a) == Head(b)
    ensures a.strategyId == b.strategyId && a.signalId == b.signalId
    ensures a.riskDecisionId == b.riskDecisionId && a.symbol == b.symbol
  {
    var riskA, riskB := a.riskDecisionId + ":" + a.symbol, b.riskDecisionId + ":" + b.symbol;
    var signalA, signalB := a.signalId + ":" + riskA, b.signalId + ":" + riskB;
    assert Head(a) == a.strategyId + ":" + signalA && Head(b) == b.strategyId + ":" + signalB;
    FirstColonSplits(a.strategyId, signalA, b.strategyId, signalB);
    FirstColonSplits(a.signalId, riskA, b.signalId, riskB);
    FirstColonSplits(a.riskDecisionId, a.symbol, b.riskDecisionId, b.symbol);
  }

  lemma HeadSplitsFromTheRight(a: KeyParts, b: KeyParts)
    requires PlainIds(a) && PlainIds(b) && ColonFree(a.symbol) && ColonFree(b.symbol) && Head(a) == Head(b)
    ensures a.strategyId == b.strategyId && a.signalId == b.signalId
    ensures a.riskDecisionId == b.riskDecisionId && a.symbol == b.symbol
  {
    var strategyA, strategyB := a.strategyId + ":" + a.signalId, b.strategyId + ":" + b.signalId;
    LastColonSplits(strategyA + ":" + a.riskDecisionId, a.symbol, strategyB + ":" + b.riskDecisionId, b.symbol);
    LastColonSplits(strategyA, a.riskDecisionId, strategyB, b.riskDecisionId);
    LastColonSplits(a.strategyId, a.signalId, b.strategyId, b.signalId);
  }

  /** Equal keys come from equal parts, as long as either the strategy names or the symbols are free of colons. */
  lemma KeyIdentifiesItsParts(a: KeyParts, b: KeyParts)
    requires PlainIds(a) && PlainIds(b)
    requires (ColonFree(a.strategyId) && ColonFree(b.strategyId)) || (ColonFree(a.symbol) && ColonFree(b.symbol))
    ensures BuildIdempotencyKey(a) == BuildIdempotencyKey(b) <==> a == b
  {
    hide SideText, Text.IntText;
    if BuildIdempotencyKey(a) == BuildIdempotencyKey(b) {
      TailSplits(Head(a), a, Head(b), b);
      if ColonFree(a.strategyId) && ColonFree(b.strategyId) {
        HeadSplitsFromTheLeft(a, b);
      } else {
        HeadSplitsFromTheRight(a, b);
      }
    }
  }

  /**
   * With colons in one strategy name and in the other symbol, two different requests can print one key. Strategies
   * are read from a fixed list of names without colons before a key is printed, so no run of the pipeline gets here.
   */
  lemma ColonsOnBothSidesCollide(signal1: string, risk1: string, signal2: string, risk2: string, side: Side, ms: int)
    ensures var a := KeyParts("s", signal1, risk1, "A:" + signal2 + ":" + risk2 + ":B", side, ms);
            var b := KeyParts("s:" + signal1 + ":" + risk1 + ":A", signal2, risk2, "B", side, ms);
            a != b && BuildIdempotencyKey(a) == BuildIdempotencyKey(b)
  {
    var a := KeyParts("s", signal1, risk1, "A:" + signal2 + ":" + risk2 + ":B", side, ms);
    var b := KeyParts("s:" + signal1 + ":" + risk1 + ":A", signal2, risk2, "B", side, ms);
    assert |a.strategyId| < |b.strategyId|;
    assert Head(a) == "s" + ":" + signal1 + ":" + risk1 + ":" + "A" + ":" + signal2 + ":" + risk2 + ":" + "B";
    assert Head(b) == "s" + ":" + signal1 + ":" + risk1 + ":" + "A" + ":" + signal2 + ":" + risk2 + ":" + "B";
  }

  /** A key as it is printed: all six parts, colons between them, the side in lower case. */
  lemma KeyInWords(p: KeyParts)
    ensures BuildIdempotencyKey(p)
            == p.strategyId + ":" + p.signalId + ":" + p.riskDecisionId + ":" + p.symbol
               + (match p.side case Buy => ":buy:" case Sell => ":sell:") + Text.IntText(p.sourceCandleOpenTimeMs)
  {
    assert ":" + "buy" + ":" == ":buy:" && ":" + "sell" + ":" == ":sell:";
    var head, ms := Head(p), Text.IntText(p.sourceCandleOpenTimeMs);
    assert head + ":" + SideText(p.side) + ":" + ms == head + (":" + SideText(p.side) + ":") + ms;
  }

  /** Runs whose risk decisions differ never print the same key, whatever signal they act on. */
  lemma FreshRiskDecisionsNeverCollide(a: KeyParts, b: KeyParts)
    requires PlainIds(a) && PlainIds(b)
    requires (ColonFree(a.strategyId) && ColonFree(b.strategyId)) || (ColonFree(a.symbol) && ColonFree(b.symbol))
    requires a.riskDecisionId != b.riskDecisionId
    ensures BuildIdempotencyKey(a) != BuildIdempotencyKey(b)
  {
    KeyIdentifiesItsParts(a, b);
  }
}
