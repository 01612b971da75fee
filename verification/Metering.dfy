/**
 Integer token rates: what a call costs, what is reserved for it, and how far
 rounding each call up can drift from rounding once.
 */
module Metering {
  import opened Common
  import opened Usage

  const MICROS_PER_MILLION := 1_000_000

  datatype RateCard = RateCard(
    currency: string, input: nat, output: nat,
    cacheHit: Option<nat>, cacheMiss: Option<nat>, reasoning: Option<nat>)
  {
    function HitRate(): nat { if cacheHit.Some? then cacheHit.value else input }
    function MissRate(): nat { if cacheMiss.Some? then cacheMiss.value else input }
    function ReasoningRate(): nat { if reasoning.Some? then reasoning.value else output }
  }

  datatype TokenUsage = TokenUsage(
    inputTokens: nat, outputTokens: nat, totalTokens: nat,
    cacheHitTokens: nat, cacheMissTokens: nat, reasoningTokens: nat)

  function Max(a: int, b: int): int { if a > b then a else b }
  function Min(a: int, b: int): int { if a < b then a else b }

  function CeilDiv(numerator: nat, denominator: Positive): nat {
    if numerator == 0 then 0 else (numerator + denominator - 1) / denominator
  }

  /** The smallest number of whole units that covers the numerator. */
  lemma CeilDivIsLeast(numerator: nat, denominator: Positive)
    ensures (CeilDiv(numerator, denominator) - 1) * denominator < numerator <= CeilDiv(numerator, denominator) * denominator
  {
  }

  lemma CeilDivMonotone(a: nat, b: nat, d: Positive)
    requires a <= b
    ensures CeilDiv(a, d) <= CeilDiv(b, d)
  {
    CeilDivIsLeast(a, d);
    CeilDivIsLeast(b, d);
    if CeilDiv(a, d) > CeilDiv(b, d) {
      TimesMonotone(CeilDiv(b, d), CeilDiv(a, d) - 1, d);
    }
  }

  lemma TimesMonotone(a: nat, b: nat, c: nat)
    requires a <= b
    ensures a * c <= b * c && c * a <= c * b
  {
  }

  function Bill(tokens: nat, rate: nat): nat {
    tokens * rate
  }

  function CostNumerator(card: RateCard, u: TokenUsage): nat {
    var ordinaryInput: nat := Max(0, u.inputTokens - (u.cacheHitTokens + u.cacheMissTokens));
    var reasoning: nat := Min(u.reasoningTokens, u.outputTokens);
    var ordinaryOutput: nat := Max(0, u.outputTokens - reasoning);
    Bill(ordinaryInput, card.input) + Bill(u.cacheHitTokens, card.HitRate()) + Bill(u.cacheMissTokens, card.MissRate())
    + Bill(ordinaryOutput, card.output) + Bill(reasoning, card.ReasoningRate())
  }

  function CalculateCost(card: RateCard, u: TokenUsage): nat {
    CeilDiv(CostNumerator(card, u), MICROS_PER_MILLION)
  }

  function EstimateNumerator(card: RateCard, input: nat, output: nat): nat {
    Bill(input, Max(card.input, Max(card.HitRate(), card.MissRate()))) + Bill(output, Max(card.output, card.ReasoningRate()))
  }

  function EstimateMaxCost(card: RateCard, input: nat, output: nat): nat {
    CeilDiv(EstimateNumerator(card, input, output), MICROS_PER_MILLION)
  }

  lemma SplitCost(a: nat, ra: nat, b: nat, rb: nat, c: nat, rc: nat, rate: nat)
    requires ra <= rate && rb <= rate && rc <= rate
    ensures a * ra + b * rb + c * rc <= (a + b + c) * rate
  {
    TimesMonotone(ra, rate, a);
    TimesMonotone(rb, rate, b);
    TimesMonotone(rc, rate, c);
    assert (a + b + c) * rate == a * rate + b * rate + c * rate;
  }

  /** What the provider reports stays within what was estimated, counting cached input tokens as input. */
  predicate Estimated(u: TokenUsage, input: nat, output: nat) {
    && Max(u.inputTokens, u.cacheHitTokens + u.cacheMissTokens) <= input
    && u.outputTokens <= output && u.reasoningTokens <= output
    && ReportedTotal(u) <= input + output
  }

  function ReportedTotal(u: TokenUsage): nat {
    if u.totalTokens != 0 then u.totalTokens else u.inputTokens + u.outputTokens
  }

  lemma EstimateCoversCost(card: RateCard, u: TokenUsage, input: nat, output: nat)
    requires Max(u.inputTokens, u.cacheHitTokens + u.cacheMissTokens) <= input && u.outputTokens <= output
    ensures CalculateCost(card, u) <= EstimateMaxCost(card, input, output)
  {
    var ordinaryInput := Max(0, u.inputTokens - (u.cacheHitTokens + u.cacheMissTokens));
    var reasoning := Min(u.reasoningTokens, u.outputTokens);
    var inputRate := Max(card.input, Max(card.HitRate(), card.MissRate()));
    var outputRate := Max(card.output, card.ReasoningRate());
    SplitCost(ordinaryInput, card.input, u.cacheHitTokens, card.HitRate(), u.cacheMissTokens, card.MissRate(), inputRate);
    TimesMonotone(ordinaryInput + u.cacheHitTokens + u.cacheMissTokens, input, inputRate);
    SplitCost(u.outputTokens - reasoning, card.output, reasoning, card.ReasoningRate(), 0, 0, outputRate);
    TimesMonotone(u.outputTokens, output, outputRate);
    CeilDivMonotone(CostNumerator(card, u), EstimateNumerator(card, input, output), MICROS_PER_MILLION);
  }

  /** Costs in the card's currency; an amount keeps no zero cost. */
  function CostIn(card: Option<RateCard>, micros: nat): map<string, Positive> {
    if card.None? || micros == 0 then map[] else map[card.value.currency := micros]
  }

  function ReservedAmount(card: Option<RateCard>, input: nat, output: nat): Amount {
    Amount(1, input, output, input + output, input, input, output, 0, 0, 0,
           CostIn(card, if card.None? then 0 else EstimateMaxCost(card.value, input, output)))
  }

  function SettledAmount(card: Option<RateCard>, u: TokenUsage): Amount {
    Amount(1, u.inputTokens, u.outputTokens, ReportedTotal(u), u.cacheHitTokens, u.cacheMissTokens, u.reasoningTokens,
           0, 0, 0, CostIn(card, if card.None? then 0 else CalculateCost(card.value, u)))
  }

  /** The reservation covers the charge, in every component and in cost. */
  lemma ReservationCoversCharge(card: Option<RateCard>, u: TokenUsage, input: nat, output: nat)
    requires Estimated(u, input, output)
    ensures AtMost(SettledAmount(card, u), ReservedAmount(card, input, output))
  {
    if card.Some? { EstimateCoversCost(card.value, u, input, output); }
  }

  /** With this card the cost is the larger of the reported and the cached input tokens. */
  const INPUT_ONLY := RateCard("USD", MICROS_PER_MILLION, 0, None, None, None)

  lemma InputOnlyCosts(u: TokenUsage, input: nat, output: nat)
    ensures CalculateCost(INPUT_ONLY, u) == Max(u.inputTokens, u.cacheHitTokens + u.cacheMissTokens)
    ensures EstimateMaxCost(INPUT_ONLY, input, output) == input
  {
    assert CostNumerator(INPUT_ONLY, u) == Max(u.inputTokens, u.cacheHitTokens + u.cacheMissTokens) * MICROS_PER_MILLION;
  }

  /** The reservation covers the charge under every card, and without one, exactly when the usage is within the
      estimates. */
  lemma CoversExactlyTheEstimated(u: TokenUsage, input: nat, output: nat)
    ensures (forall card: Option<RateCard> :: AtMost(SettledAmount(card, u), ReservedAmount(card, input, output)))
            <==> Estimated(u, input, output)
  {
    if Estimated(u, input, output) {
      forall card: Option<RateCard> ensures AtMost(SettledAmount(card, u), ReservedAmount(card, input, output)) {
        ReservationCoversCharge(card, u, input, output);
      }
    }
    var settled, reserved := SettledAmount(Some(INPUT_ONLY), u), ReservedAmount(Some(INPUT_ONLY), input, output);
    if AtMost(settled, reserved) {
      InputOnlyCosts(u, input, output);
      assert Of(settled, Cost("USD")) <= Of(reserved, Cost("USD"));
      assert Of(settled, OutputTokens) <= Of(reserved, OutputTokens);
      assert Of(settled, ReasoningTokens) <= Of(reserved, ReasoningTokens);
      assert Of(settled, TotalTokens) <= Of(reserved, TotalTokens);
    }
  }

  /** Hits and misses must stay within the estimate together: each within it alone is not enough. */
  lemma CachedTokensCountTogether(card: RateCard, input: nat)
    requires card.input == MICROS_PER_MILLION && card.cacheHit == None && card.cacheMiss == None && input >= 1
    ensures var u := TokenUsage(input, 0, input, input, input, 0);
            && !AtMost(SettledAmount(Some(card), u), ReservedAmount(Some(card), input, 0))
            && forall res: Resource :: !res.Cost? ==> Of(SettledAmount(Some(card), u), res) <= Of(ReservedAmount(Some(card), input, 0), res)
  {
    var u := TokenUsage(input, 0, input, input, input, 0);
    assert CostNumerator(card, u) == 2 * input * MICROS_PER_MILLION;
    assert EstimateNumerator(card, input, 0) == input * MICROS_PER_MILLION;
    assert Of(SettledAmount(Some(card), u), Cost(card.currency)) == 2 * input;
    assert Of(ReservedAmount(Some(card), input, 0), Cost(card.currency)) == input;
  }

  // Rounding: a bill per call exceeds one bill for all of them by less than one unit per extra call.

  predicate Consistent(u: TokenUsage) {
    u.cacheHitTokens + u.cacheMissTokens <= u.inputTokens && u.reasoningTokens <= u.outputTokens
  }

  function SumUsage(us: seq<TokenUsage>): TokenUsage {
    if us == [] then TokenUsage(0, 0, 0, 0, 0, 0) else
      var u, rest := us[0], SumUsage(us[1..]);
      TokenUsage(u.inputTokens + rest.inputTokens, u.outputTokens + rest.outputTokens, u.totalTokens + rest.totalTokens,
                 u.cacheHitTokens + rest.cacheHitTokens, u.cacheMissTokens + rest.cacheMissTokens,
                 u.reasoningTokens + rest.reasoningTokens)
  }

  function SumCosts(card: RateCard, us: seq<TokenUsage>): nat {
    if us == [] then 0 else CalculateCost(card, us[0]) + SumCosts(card, us[1..])
  }

  lemma Distribute(x: int, y: int, r: int)
    ensures (x + y) * r == x * r + y * r
  {
  }

  lemma NumeratorAdds(card: RateCard, u: TokenUsage, v: TokenUsage, both: TokenUsage)
    requires Consistent(u) && Consistent(v)
    requires both.inputTokens == u.inputTokens + v.inputTokens && both.outputTokens == u.outputTokens + v.outputTokens
    requires both.cacheHitTokens == u.cacheHitTokens + v.cacheHitTokens
    requires both.cacheMissTokens == u.cacheMissTokens + v.cacheMissTokens
    requires both.reasoningTokens == u.reasoningTokens + v.reasoningTokens
    ensures CostNumerator(card, both) == CostNumerator(card, u) + CostNumerator(card, v)
  {
    Distribute(u.inputTokens - (u.cacheHitTokens + u.cacheMissTokens), v.inputTokens - (v.cacheHitTokens + v.cacheMissTokens), card.input);
    Distribute(u.cacheHitTokens, v.cacheHitTokens, card.HitRate());
    Distribute(u.cacheMissTokens, v.cacheMissTokens, card.MissRate());
    Distribute(u.outputTokens - u.reasoningTokens, v.outputTokens - v.reasoningTokens, card.output);
    Distribute(u.reasoningTokens, v.reasoningTokens, card.ReasoningRate());
  }

  lemma CeilDivAdds(a: nat, b: nat, d: Positive)
    ensures CeilDiv(a + b, d) <= CeilDiv(a, d) + CeilDiv(b, d)
    ensures a > 0 && b > 0 ==> CeilDiv(a, d) + CeilDiv(b, d) <= CeilDiv(a + b, d) + 1
    ensures a == 0 || b == 0 ==> CeilDiv(a, d) + CeilDiv(b, d) == CeilDiv(a + b, d)
  {
    var x, y, z := CeilDiv(a, d), CeilDiv(b, d), CeilDiv(a + b, d);
    CeilDivIsLeast(a, d);
    CeilDivIsLeast(b, d);
    CeilDivIsLeast(a + b, d);
    Distribute(x, y, d);
    if z > x + y { TimesMonotone(x + y, z - 1, d); }
    if a > 0 && b > 0 && x + y > z + 1 {
      Distribute(x - 1, y - 1, d);
      TimesMonotone(z, x - 1 + (y - 1), d);
    }
  }

  /** Billing n calls one by one overcharges by at most n - 1 micro-units, and never undercharges. */
  lemma {:induction false} RoundingBound(card: RateCard, us: seq<TokenUsage>)
    requires us != [] && forall u :: u in us ==> Consistent(u)
    ensures Consistent(SumUsage(us))
    ensures 0 <= SumCosts(card, us) - CalculateCost(card, SumUsage(us)) <= |us| - 1
  {
    if |us| == 1 {
      assert us[1..] == [];
      NumeratorAdds(card, us[0], SumUsage([]), SumUsage(us));
    } else {
      RoundingBound(card, us[1..]);
      NumeratorAdds(card, us[0], SumUsage(us[1..]), SumUsage(us));
      CeilDivAdds(CostNumerator(card, us[0]), CostNumerator(card, SumUsage(us[1..])), MICROS_PER_MILLION);
    }
  }

  // What each kind of token costs, in the card's own fields.

  /** The cost of `tokens` at one rate per million. */
  function At(tokens: nat, rate: nat): nat {
    CeilDiv(tokens * rate, MICROS_PER_MILLION)
  }

  /** Tokens of one kind alone are billed at the rate for that kind, and a rate not given is that of ordinary tokens. */
  lemma EachKindAtItsRate(card: RateCard, n: nat)
    ensures CalculateCost(card, TokenUsage(n, 0, n, 0, 0, 0)) == At(n, card.input)
    ensures CalculateCost(card, TokenUsage(n, 0, n, n, 0, 0)) == At(n, match card.cacheHit case Some(rate) => rate case None => card.input)
    ensures CalculateCost(card, TokenUsage(n, 0, n, 0, n, 0)) == At(n, match card.cacheMiss case Some(rate) => rate case None => card.input)
    ensures CalculateCost(card, TokenUsage(0, n, n, 0, 0, 0)) == At(n, card.output)
    ensures CalculateCost(card, TokenUsage(0, n, n, 0, 0, n)) == At(n, match card.reasoning case Some(rate) => rate case None => card.output)
  {
  }

  /** Cached tokens beyond the reported input are billed at their own rates and make the ordinary input zero; reasoning
      tokens beyond the reported output are not billed. The reported total never matters. */
  lemma ClampedCosts(card: RateCard, u: TokenUsage)
    ensures u.cacheHitTokens + u.cacheMissTokens >= u.inputTokens ==>
              CalculateCost(card, u) == CalculateCost(card, u.(inputTokens := u.cacheHitTokens + u.cacheMissTokens))
    ensures u.reasoningTokens >= u.outputTokens ==> CalculateCost(card, u) == CalculateCost(card, u.(reasoningTokens := u.outputTokens))
    ensures CalculateCost(card, u) == CalculateCost(card, u.(totalTokens := 0))
  {
  }

  /** A usage is its parts, one kind of token each. */
  function Parts(u: TokenUsage): seq<TokenUsage>
    requires Consistent(u)
  {
    [TokenUsage(u.inputTokens - u.cacheHitTokens - u.cacheMissTokens, 0, 0, 0, 0, 0),
     TokenUsage(u.cacheHitTokens, 0, 0, u.cacheHitTokens, 0, 0), TokenUsage(u.cacheMissTokens, 0, 0, 0, u.cacheMissTokens, 0),
     TokenUsage(0, u.outputTokens - u.reasoningTokens, 0, 0, 0, 0), TokenUsage(0, u.reasoningTokens, 0, 0, 0, u.reasoningTokens)]
  }

  /** The numerators of the parts add up, so the cost of every consistent usage is fixed by the five rates. */
  lemma CostOfParts(card: RateCard, u: TokenUsage)
    requires Consistent(u)
    ensures var p := Parts(u);
            CostNumerator(card, u) == CostNumerator(card, p[0]) + CostNumerator(card, p[1]) + CostNumerator(card, p[2])
                                      + CostNumerator(card, p[3]) + CostNumerator(card, p[4])
  {
  }

  /** The estimate is not merely an upper bound: some usage within it costs exactly that. */
  lemma EstimateIsReached(card: RateCard, input: nat, output: nat) returns (u: TokenUsage)
    ensures u.inputTokens == input && u.outputTokens == output && Consistent(u)
    ensures CalculateCost(card, u) == EstimateMaxCost(card, input, output)
  {
    var rate := Max(card.input, Max(card.HitRate(), card.MissRate()));
    var hit, miss := if rate == card.HitRate() then input else 0, if rate == card.HitRate() || rate != card.MissRate() then 0 else input;
    var reasoning := if card.ReasoningRate() >= card.output then output else 0;
    u := TokenUsage(input, output, input + output, hit, miss, reasoning);
  }

  /** What is settled is what was reported, field by field, with the cost in the card's currency alone. */
  lemma SettlesWhatIsReported(card: Option<RateCard>, u: TokenUsage)
    ensures var a := SettledAmount(card, u);
            && a.modelCalls == 1 && a.inputTokens == u.inputTokens && a.outputTokens == u.outputTokens
            && a.totalTokens == (if u.totalTokens == 0 then u.inputTokens + u.outputTokens else u.totalTokens)
            && a.cacheHitTokens == u.cacheHitTokens && a.cacheMissTokens == u.cacheMissTokens
            && a.reasoningTokens == u.reasoningTokens
            && a.toolCalls == 0 && a.agentTasks == 0 && a.attempts == 0
            && forall c :: CostFor(a, c) == if card.Some? && card.value.currency == c then CalculateCost(card.value, u) else 0
  {
  }

  /** What is reserved is one call with the worst case of every field. */
  lemma ReservesTheWorstCase(card: Option<RateCard>, input: nat, output: nat)
    ensures var a := ReservedAmount(card, input, output);
            && a.modelCalls == 1 && a.inputTokens == input && a.outputTokens == output && a.totalTokens == input + output
            && a.cacheHitTokens == input && a.cacheMissTokens == input && a.reasoningTokens == output
            && a.toolCalls == 0 && a.agentTasks == 0 && a.attempts == 0
            && forall c :: CostFor(a, c) == if card.Some? && card.value.currency == c then EstimateMaxCost(card.value, input, output) else 0
  {
  }
}
