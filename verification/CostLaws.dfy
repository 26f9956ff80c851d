// What a price list means for a bill, read off the list itself.
module CostLaws {
  import opened Prelude
  import opened Cost

  // --- Rates ----------------------------------------------------------------------------------------------

  // The rate is the one set by an exceeded tier above which no exceeded tier sets one; without such a tier, it is
  // the base's own, or else the fallback.
  ghost predicate InForce(p: Pricing, prompt: real, own: Rates -> Option<real>, fallback: real, rate: real) {
    if exists t :: t in p.tiers && prompt > t.above && own(t.rates).Some? then
      exists t :: t in p.tiers && prompt > t.above && own(t.rates) == Some(rate) &&
                  forall s | s in p.tiers && prompt > s.above && own(s.rates).Some? :: s.above <= t.above
    else if own(p.base).Some? then own(p.base) == Some(rate)
    else rate == fallback
  }

  lemma RateInForce(p: Pricing, prompt: real, k: Kind, own: Rates -> Option<real>)
    requires forall r :: own(r) == RateOf(r, k)
    ensures Winner(p.tiers, prompt, k).Some? || own(p.base).Some? ==>
              forall fallback :: InForce(p, prompt, own, fallback, EffectiveRate(p, prompt, k))
    ensures Winner(p.tiers, prompt, k).None? <==> !exists t :: t in p.tiers && prompt > t.above && own(t.rates).Some?
  {
    WinnerIsHighest(p.tiers, prompt, k);
    var w := Winner(p.tiers, prompt, k);
    if w.Some? { assert w.value in p.tiers && own(w.value.rates) == Some(EffectiveRate(p, prompt, k)); }
    if t :| t in p.tiers && prompt > t.above && own(t.rates).Some? { assert Applies(t, prompt, k); }
  }

  // The four rates of a bill: input and output cost nothing where nobody prices them, and cached tokens what the
  // base charges for input.
  lemma RatesAreThoseListed(p: Pricing, prompt: real)
    ensures InForce(p, prompt, (r: Rates) => r.input, 0.0, EffectiveRate(p, prompt, Input))
    ensures InForce(p, prompt, (r: Rates) => r.output, 0.0, EffectiveRate(p, prompt, Output))
    ensures InForce(p, prompt, (r: Rates) => r.cacheRead, OrElse(p.base.input, 0.0), EffectiveRate(p, prompt, CacheRead))
    ensures InForce(p, prompt, (r: Rates) => r.cacheWrite, OrElse(p.base.input, 0.0), EffectiveRate(p, prompt, CacheWrite))
  {
    RateInForce(p, prompt, Input, (r: Rates) => r.input);
    RateInForce(p, prompt, Output, (r: Rates) => r.output);
    RateInForce(p, prompt, CacheRead, (r: Rates) => r.cacheRead);
    RateInForce(p, prompt, CacheWrite, (r: Rates) => r.cacheWrite);
  }

  // --- Cached tokens without a rate of their own ------------------------------------------------------------

  ghost predicate NoCacheRate(p: Pricing, prompt: real) {
    p.base.cacheRead.None? && p.base.cacheWrite.None? &&
    forall t | t in p.tiers && prompt > t.above :: t.rates.cacheRead.None? && t.rates.cacheWrite.None?
  }

  function WithoutCache(u: Usage): Usage {
    u.(cacheRead := None, cacheWrite := None)
  }

  // Tokens of a prompt and nothing else.
  function PromptOnly(tokens: real): Usage {
    Usage(tokens, 0.0, None, None, None, None, None)
  }

  lemma CachedRateIsTheBaseInput(p: Pricing, prompt: real)
    requires NoCacheRate(p, prompt)
    ensures EffectiveRate(p, prompt, CacheRead) == EffectiveRate(p, prompt, CacheWrite) == OrElse(p.base.input, 0.0)
  {
    RateInForce(p, prompt, CacheRead, (r: Rates) => r.cacheRead);
    RateInForce(p, prompt, CacheWrite, (r: Rates) => r.cacheWrite);
  }

  // Where no cache rate is set and no exceeded tier sets the input rate, it makes no difference to a bill how
  // many of the prompt's tokens were cached.
  lemma CachingIsFreeOfChargeAndDiscount(p: Pricing, u: Usage)
    requires Configured(p) && NoCacheRate(p, u.prompt) && 0.0 <= Cached(u) <= u.prompt
    requires forall t | t in p.tiers && u.prompt > t.above :: t.rates.input.None?
    ensures CostOf(Some(p), u).total == CostOf(Some(p), WithoutCache(u)).total
  {
    CachedRateIsTheBaseInput(p, u.prompt);
    RateInForce(p, u.prompt, Input, (r: Rates) => r.input);
    var rate, read, write := EffectiveRate(p, u.prompt, Input), OrElse(u.cacheRead, 0.0), OrElse(u.cacheWrite, 0.0);
    assert rate == OrElse(p.base.input, 0.0);
    hide EffectiveRate, Configured;
    TokensAdd(u.prompt - read - write, read, rate);
    TokensAdd(u.prompt - write, write, rate);
    assert TokenCents(0.0, EffectiveRate(p, u.prompt, CacheRead)) == 0.0;
    hide TokenCents, UnitCents, AudioCents;
    assert u.prompt - read - write + read == u.prompt - write && u.prompt - write + write == u.prompt;
  }

  lemma PromptOnlyCosts(p: Pricing, tokens: real)
    requires tokens >= 0.0
    ensures CostOf(Some(p), PromptOnly(tokens)).input == TokenCents(tokens, EffectiveRate(p, tokens, Input))
  {
    hide EffectiveRate, TokenCents, UnitCents, AudioCents, Configured;
  }

  lemma BaseAlone(p: Pricing, prompt: real)
    requires p.tiers == []
    ensures EffectiveRate(p, prompt, Input) == OrElse(p.base.input, 0.0)
  {
  }

  // Where no cache rate is set, cached tokens cost what they would as uncached ones under the base alone, whatever
  // input rate an exceeded tier sets.
  lemma CachedTokensKeepTheBaseRate(p: Pricing, u: Usage)
    requires NoCacheRate(p, u.prompt) && OrElse(u.cacheRead, 0.0) >= 0.0 && OrElse(u.cacheWrite, 0.0) >= 0.0
    ensures var c, base := CostOf(Some(p), u), p.(tiers := []);
            && c.cacheRead == CostOf(Some(base), PromptOnly(OrElse(u.cacheRead, 0.0))).input
            && c.cacheWrite == CostOf(Some(base), PromptOnly(OrElse(u.cacheWrite, 0.0))).input
  {
    var base, read, write := p.(tiers := []), OrElse(u.cacheRead, 0.0), OrElse(u.cacheWrite, 0.0);
    CachedRateIsTheBaseInput(p, u.prompt);
    BaseAlone(base, read);
    BaseAlone(base, write);
    PromptOnlyCosts(base, read);
    PromptOnlyCosts(base, write);
    hide PromptOnly, NoCacheRate, EffectiveRate, TokenCents, UnitCents, AudioCents, Configured;
  }

  // --- Whose price counts -----------------------------------------------------------------------------------

  // The provider's own price is charged exactly where the list is missing or empty; the record keeps it always.
  lemma ProviderPriceCountsWithoutAList(pricing: Option<Pricing>, u: Usage, cents: real)
    ensures CostOf(pricing, u).providerReported == u.providerCost
    ensures pricing.None? || pricing == Some(NO_PRICING) ==>
              CostOf(pricing, u).total == (if u.providerCost.Some? then u.providerCost.value else 0.0)
    ensures pricing.Some? && pricing != Some(NO_PRICING) ==>
              CostOf(pricing, u).total == CostOf(pricing, u.(providerCost := Some(cents))).total
  {
    if pricing.None? || pricing == Some(NO_PRICING) {
      assert forall k :: EffectiveRate(NO_PRICING, u.prompt, k) == 0.0;
      assert forall x: real :: TokenCents(x, 0.0) == 0.0;
      assert forall x: real :: UnitCents(x, 0.0) == 0.0;
      assert forall x: real :: AudioCents(x, 0.0) == 0.0;
      hide EffectiveRate, TokenCents, UnitCents, AudioCents;
    } else {
      hide EffectiveRate, TokenCents, UnitCents, AudioCents;
    }
  }

  // --- One bill, in numbers ---------------------------------------------------------------------------------

  const EXAMPLE := Pricing(Rates(Some(200.0), Some(1200.0), Some(20.0), Some(250.0)), Some(2.0), Some(6.0),
                           [Tier(200000.0, Rates(Some(400.0), Some(1800.0), Some(40.0), None))])

  lemma ExampleRates()
    ensures EffectiveRate(EXAMPLE, 250000.0, Input) == 400.0 && EffectiveRate(EXAMPLE, 250000.0, Output) == 1800.0
    ensures EffectiveRate(EXAMPLE, 250000.0, CacheRead) == 40.0 && EffectiveRate(EXAMPLE, 250000.0, CacheWrite) == 250.0
    ensures EffectiveRate(EXAMPLE, 200000.0, Input) == 200.0 && EffectiveRate(EXAMPLE, 200000.0, Output) == 1200.0
    ensures EffectiveRate(EXAMPLE, 200000.0, CacheRead) == 20.0 && EffectiveRate(EXAMPLE, 200000.0, CacheWrite) == 250.0
  {
    assert EXAMPLE.tiers[..0] == [];
  }

  // A prompt above the threshold is charged at the tier's rates as a whole.
  lemma OneBill()
    ensures CostOf(Some(EXAMPLE), Usage(250000.0, 1000.0, Some(50000.0), Some(100000.0), Some(3.0), Some(90.0), None)) ==
              Breakdown(40.0, 2.0, 25.0, 1.8, 6.0, 9.0, None, 83.8)
  {
    ExampleRates();
    hide EffectiveRate;
    assert TokenCents(100000.0, 400.0) == 40.0 && TokenCents(50000.0, 40.0) == 2.0;
    assert TokenCents(100000.0, 250.0) == 25.0 && TokenCents(1000.0, 1800.0) == 1.8;
    assert UnitCents(3.0, 2.0) == 6.0 && AudioCents(90.0, 6.0) == 9.0;
    hide TokenCents, UnitCents, AudioCents;
  }

  // A prompt at the threshold is charged at the base's rates.
  lemma OneBillAtTheThreshold()
    ensures CostOf(Some(EXAMPLE), Usage(200000.0, 1000.0, Some(50000.0), Some(100000.0), Some(3.0), Some(90.0), Some(5.0))) ==
              Breakdown(10.0, 1.0, 25.0, 1.2, 6.0, 9.0, Some(5.0), 52.2)
  {
    ExampleRates();
    hide EffectiveRate;
    assert TokenCents(50000.0, 200.0) == 10.0 && TokenCents(50000.0, 20.0) == 1.0;
    assert TokenCents(100000.0, 250.0) == 25.0 && TokenCents(1000.0, 1200.0) == 1.2;
    assert UnitCents(3.0, 2.0) == 6.0 && AudioCents(90.0, 6.0) == 9.0;
    hide TokenCents, UnitCents, AudioCents;
  }

  lemma ExampleHighest()
    ensures AllRates(EXAMPLE) != [] && Highest(AllRates(EXAMPLE)) == 1800.0
  {
    assert TierRates(EXAMPLE.tiers) == [400.0, 1800.0, 40.0] by { assert EXAMPLE.tiers[1..] == []; }
    var rates := AllRates(EXAMPLE);
    assert rates == [200.0, 1200.0, 20.0, 250.0, 400.0, 1800.0, 40.0];
    hide AllRates, Highest;
    assert rates[5] == 1800.0 && forall i | 0 <= i < 7 :: rates[i] <= 1800.0;
    assert 1800.0 in rates && forall r | r in rates :: r <= 1800.0;
  }

  // And what is reserved for a thousand tokens, three units and a minute and a half.
  lemma OneEstimate()
    ensures EstimateMaximumCostCents(Some(EXAMPLE), 1000.0, 3.0, 90.0) == Some(16.8)
  {
    ExampleHighest();
    hide AllRates, Highest;
    assert UnitCents(3.0, 2.0) == 6.0 && AudioCents(90.0, 6.0) == 9.0;
  }
}
