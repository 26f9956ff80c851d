// Pricing: the tiered step function over the prompt size, the cost of a usage record, and the upper
// bound reserved before a request runs. Amounts are real numbers.
module Cost {
  import opened Prelude

  datatype Kind = Input | Output | CacheRead | CacheWrite

  // Cents per million tokens; a missing rate is None.
  datatype Rates = Rates(input: Option<real>, output: Option<real>, cacheRead: Option<real>, cacheWrite: Option<real>)

  datatype Tier = Tier(above: real, rates: Rates)

  datatype Pricing = Pricing(base: Rates, searchUnit: Option<real>, audioPerMinute: Option<real>, tiers: seq<Tier>)

  datatype Usage = Usage(prompt: real, completion: real, cacheRead: Option<real>, cacheWrite: Option<real>,
                         searchUnits: Option<real>, audioSeconds: Option<real>, providerCost: Option<real>)

  datatype Breakdown = Breakdown(input: real, cacheRead: real, cacheWrite: real, output: real,
                                 searchUnit: real, audio: real, providerReported: Option<real>, total: real)

  function RateOf(r: Rates, k: Kind): Option<real> {
    match k
    case Input => r.input
    case Output => r.output
    case CacheRead => r.cacheRead
    case CacheWrite => r.cacheWrite
  }

  function OrElse(o: Option<real>, default: real): real {
    if o.Some? then o.value else default
  }

  function Max(a: real, b: real): real {
    if a < b then b else a
  }

  // --- Tiers --------------------------------------------------------------------------------------------

  predicate Applies(t: Tier, prompt: real, k: Kind) {
    prompt > t.above && RateOf(t.rates, k).Some?
  }

  // The tier that sets a rate: of those exceeded and defining it, the highest; of equals, the last listed.
  function Winner(tiers: seq<Tier>, prompt: real, k: Kind): Option<Tier>
    decreases |tiers|
  {
    if tiers == [] then None
    else
      var rest, t := Winner(tiers[..|tiers| - 1], prompt, k), tiers[|tiers| - 1];
      if Applies(t, prompt, k) && (rest.None? || rest.value.above <= t.above) then Some(t) else rest
  }

  // Without a tier, cached tokens cost what input costs.
  function BaseRate(r: Rates, k: Kind): real {
    match k
    case Input => OrElse(r.input, 0.0)
    case Output => OrElse(r.output, 0.0)
    case CacheRead => OrElse(r.cacheRead, OrElse(r.input, 0.0))
    case CacheWrite => OrElse(r.cacheWrite, OrElse(r.input, 0.0))
  }

  function EffectiveRate(p: Pricing, prompt: real, k: Kind): real {
    var w := Winner(p.tiers, prompt, k);
    if w.Some? then OrElse(RateOf(w.value.rates, k), 0.0) else BaseRate(p.base, k)
  }

  lemma {:induction false} WinnerIsHighest(tiers: seq<Tier>, prompt: real, k: Kind)
    ensures var w := Winner(tiers, prompt, k);
            (w.None? <==> forall t | t in tiers :: !Applies(t, prompt, k)) &&
            (w.Some? ==> w.value in tiers && Applies(w.value, prompt, k) &&
                         forall t | t in tiers && Applies(t, prompt, k) :: t.above <= w.value.above)
    decreases |tiers|
  {
    if tiers != [] {
      var front, t := tiers[..|tiers| - 1], tiers[|tiers| - 1];
      WinnerIsHighest(front, prompt, k);
      assert tiers == front + [t];
    }
  }

  // Tiers with one threshold that set the same kind set it to the same rate.
  ghost predicate OrderFree(tiers: seq<Tier>) {
    forall s, t, k | s in tiers && t in tiers && s.above == t.above &&
                     RateOf(s.rates, k).Some? && RateOf(t.rates, k).Some? ::
      RateOf(s.rates, k) == RateOf(t.rates, k)
  }

  ghost predicate SameRatesInOrder(p: Pricing, order: seq<Tier>) {
    forall prompt, k :: EffectiveRate(p.(tiers := order), prompt, k) == EffectiveRate(p, prompt, k)
  }

  lemma OrderFreeRates(p: Pricing, order: seq<Tier>, prompt: real, k: Kind)
    requires OrderFree(p.tiers) && multiset(order) == multiset(p.tiers)
    ensures EffectiveRate(p.(tiers := order), prompt, k) == EffectiveRate(p, prompt, k)
  {
    WinnerIsHighest(p.tiers, prompt, k);
    WinnerIsHighest(order, prompt, k);
    assert forall t :: t in p.tiers <==> t in multiset(p.tiers);
    assert forall t :: t in order <==> t in multiset(order);
  }

  // A prompt size just above a threshold exceeds no higher one.
  lemma {:induction false} JustAbove(tiers: seq<Tier>, above: real) returns (prompt: real)
    ensures prompt > above && forall t | t in tiers :: t.above > above ==> t.above >= prompt
    decreases |tiers|
  {
    if tiers == [] {
      prompt := above + 1.0;
    } else {
      prompt := JustAbove(tiers[1..], above);
      if above < tiers[0].above < prompt { prompt := tiers[0].above; }
    }
  }

  // The tiers in an order that lists one of them last.
  lemma ListedLast(tiers: seq<Tier>, s: Tier) returns (order: seq<Tier>)
    requires s in tiers
    ensures multiset(order) == multiset(tiers) && order != [] && order[|order| - 1] == s
  {
    var i :| 0 <= i < |tiers| && tiers[i] == s;
    order := tiers[..i] + tiers[i + 1..] + [s];
    assert tiers == tiers[..i] + [s] + tiers[i + 1..];
  }

  // At such a prompt size the tier listed last sets its rates.
  lemma LastSetsTheRate(p: Pricing, s: Tier, prompt: real, k: Kind) returns (order: seq<Tier>)
    requires s in p.tiers && RateOf(s.rates, k).Some? && prompt > s.above
    requires forall t | t in p.tiers :: t.above > s.above ==> t.above >= prompt
    ensures multiset(order) == multiset(p.tiers)
    ensures Some(EffectiveRate(p.(tiers := order), prompt, k)) == RateOf(s.rates, k)
  {
    order := ListedLast(p.tiers, s);
    WinnerIsHighest(order[..|order| - 1], prompt, k);
    var rest := Winner(order[..|order| - 1], prompt, k);
    if rest.Some? {
      assert rest.value in order;
      assert rest.value in multiset(order);
      assert rest.value in p.tiers;
    }
    assert Winner(order, prompt, k) == Some(s);
  }

  // The order in which tiers are listed never changes a rate exactly if tiers with one threshold agree wherever
  // they set the same rate.
  lemma TierOrderIsIrrelevant(p: Pricing)
    ensures (forall order | multiset(order) == multiset(p.tiers) :: SameRatesInOrder(p, order)) <==> OrderFree(p.tiers)
  {
    if OrderFree(p.tiers) {
      forall order, prompt, k | multiset(order) == multiset(p.tiers)
        ensures EffectiveRate(p.(tiers := order), prompt, k) == EffectiveRate(p, prompt, k)
      {
        OrderFreeRates(p, order, prompt, k);
      }
    } else {
      var s, t, k :| s in p.tiers && t in p.tiers && s.above == t.above && RateOf(s.rates, k).Some? &&
                     RateOf(t.rates, k).Some? && RateOf(s.rates, k) != RateOf(t.rates, k);
      var prompt := JustAbove(p.tiers, s.above);
      var a := LastSetsTheRate(p, s, prompt, k);
      var b := LastSetsTheRate(p, t, prompt, k);
      assert SameRatesInOrder(p, a) ==> EffectiveRate(p.(tiers := a), prompt, k) == EffectiveRate(p, prompt, k);
      assert SameRatesInOrder(p, b) ==> EffectiveRate(p.(tiers := b), prompt, k) == EffectiveRate(p, prompt, k);
    }
  }

  lemma LaterOfTwo(a: Tier, b: Tier)
    requires a.above == b.above == 0.0 && a.rates.input.Some? && b.rates.input.Some?
    ensures Winner([a, b], 1.0, Input) == Some(b)
  {
    assert [a, b][..1] == [a] && [a][..0] == [];
    assert Winner([a], 1.0, Input) == Some(a);
  }

  // Two tiers with one threshold: the later one wins, so their order does matter.
  lemma EqualThresholdsDependOnOrder()
    ensures exists p: Pricing, q: Pricing, prompt: real ::
              p.base == q.base && multiset(p.tiers) == multiset(q.tiers) &&
              EffectiveRate(p, prompt, Input) != EffectiveRate(q, prompt, Input)
  {
    var none := Rates(None, None, None, None);
    var a, b := Tier(0.0, none.(input := Some(1.0))), Tier(0.0, none.(input := Some(2.0)));
    var p, q := Pricing(none, None, None, [a, b]), Pricing(none, None, None, [b, a]);
    LaterOfTwo(a, b);
    LaterOfTwo(b, a);
    assert EffectiveRate(p, 1.0, Input) != EffectiveRate(q, 1.0, Input);
  }

  // --- The platform sort, which is stable ---------------------------------------------------------------

  ghost predicate Ascending(tiers: seq<Tier>) {
    forall i, j | 0 <= i < j < |tiers| :: tiers[i].above <= tiers[j].above
  }

  // The tiers with a given threshold, in list order.
  function At(tiers: seq<Tier>, above: real): seq<Tier>
    decreases |tiers|
  {
    if tiers == [] then []
    else
      var t := tiers[|tiers| - 1];
      At(tiers[..|tiers| - 1], above) + (if t.above == above then [t] else [])
  }

  ghost predicate StableSortOf(sorted: seq<Tier>, tiers: seq<Tier>) {
    Ascending(sorted) && forall above :: At(sorted, above) == At(tiers, above)
  }

  lemma {:induction false} AtOfConcat(a: seq<Tier>, b: seq<Tier>, above: real)
    ensures At(a + b, above) == At(a, above) + At(b, above)
    decreases |b|
  {
    if b == [] {
      assert a + b == a;
    } else {
      var front, t := b[..|b| - 1], b[|b| - 1];
      AtOfConcat(a, front, above);
      assert (a + b)[..|a + b| - 1] == a + front;
    }
  }

  lemma {:induction false} AtAboveAll(tiers: seq<Tier>, above: real)
    requires forall t | t in tiers :: t.above != above
    ensures At(tiers, above) == []
    decreases |tiers|
  {
    if tiers != [] { AtAboveAll(tiers[..|tiers| - 1], above); }
  }

  // Placing a tier behind those at or below its threshold keeps order and stability.
  lemma InsertionIsStable(sorted: seq<Tier>, tiers: seq<Tier>, t: Tier, i: nat)
    requires StableSortOf(sorted, tiers) && i <= |sorted|
    requires forall j | 0 <= j < i :: sorted[j].above <= t.above
    requires forall j | i <= j < |sorted| :: t.above < sorted[j].above
    ensures StableSortOf(sorted[..i] + [t] + sorted[i..], tiers + [t])
  {
    var low, high := sorted[..i], sorted[i..];
    assert sorted == low + high;
    assert Ascending(low + [t] + high) by { hide At; }
    forall above
      ensures At(low + [t] + high, above) == At(tiers + [t], above)
    {
      PlacedBehind(low, high, t, above);
      AtOfConcat(tiers, [t], above);
    }
  }

  lemma PlacedBehind(low: seq<Tier>, high: seq<Tier>, t: Tier, above: real)
    requires forall u | u in high :: u.above > t.above
    ensures At(low + [t] + high, above) == At(low + high, above) + At([t], above)
  {
    hide At;
    AtOfConcat(low, high, above);
    AtOfConcat(low + [t], high, above);
    AtOfConcat(low, [t], above);
    if above == t.above {
      AtAboveAll(high, above);
    } else {
      AtAboveAll([t], above);
    }
  }

  method SortTiers(tiers: seq<Tier>) returns (sorted: seq<Tier>)
    ensures StableSortOf(sorted, tiers)
  {
    sorted := [];
    for n := 0 to |tiers|
      invariant StableSortOf(sorted, tiers[..n])
    {
      var i := |sorted|;
      while i > 0 && tiers[n].above < sorted[i - 1].above
        invariant 0 <= i <= |sorted|
        invariant forall j | i <= j < |sorted| :: tiers[n].above < sorted[j].above
      {
        i := i - 1;
      }
      InsertionIsStable(sorted, tiers[..n], tiers[n], i);
      assert tiers[..n + 1] == tiers[..n] + [tiers[n]];
      sorted := sorted[..i] + [tiers[n]] + sorted[i..];
    }
    assert tiers[..|tiers|] == tiers;
  }

  // The last tier with a threshold that sets a rate.
  function LastAt(tiers: seq<Tier>, prompt: real, k: Kind): Option<Tier>
    decreases |tiers|
  {
    if tiers == [] then None
    else if Applies(tiers[|tiers| - 1], prompt, k) then Some(tiers[|tiers| - 1])
    else LastAt(tiers[..|tiers| - 1], prompt, k)
  }

  lemma {:induction false} WinnerByThreshold(tiers: seq<Tier>, prompt: real, k: Kind, above: real)
    ensures var w := Winner(tiers, prompt, k);
            (w.None? ==> LastAt(At(tiers, above), prompt, k).None?) &&
            (w.Some? && w.value.above == above ==> LastAt(At(tiers, above), prompt, k) == w) &&
            (w.Some? && w.value.above < above ==> LastAt(At(tiers, above), prompt, k).None?)
    decreases |tiers|
  {
    if tiers != [] {
      var front, t := tiers[..|tiers| - 1], tiers[|tiers| - 1];
      WinnerByThreshold(front, prompt, k, above);
      if t.above == above {
        assert (At(front, above) + [t])[..|At(front, above)|] == At(front, above);
      } else {
        assert At(tiers, above) == At(front, above);
      }
    }
  }

  // Sorting does not change which tier sets a rate.
  lemma SortingKeepsTheWinner(sorted: seq<Tier>, tiers: seq<Tier>, prompt: real, k: Kind)
    requires StableSortOf(sorted, tiers)
    ensures Winner(sorted, prompt, k) == Winner(tiers, prompt, k)
  {
    var v, w := Winner(sorted, prompt, k), Winner(tiers, prompt, k);
    if v.Some? {
      WinnerByThreshold(sorted, prompt, k, v.value.above);
      WinnerByThreshold(tiers, prompt, k, v.value.above);
    }
    if w.Some? {
      WinnerByThreshold(sorted, prompt, k, w.value.above);
      WinnerByThreshold(tiers, prompt, k, w.value.above);
    }
  }

  function RateAfter(p: Pricing, sorted: seq<Tier>, i: nat, prompt: real, k: Kind): real
    requires i <= |sorted|
  {
    EffectiveRate(p.(tiers := sorted[..i]), prompt, k)
  }

  lemma NextTier(p: Pricing, sorted: seq<Tier>, i: nat, prompt: real, k: Kind)
    requires Ascending(sorted) && i < |sorted|
    ensures RateAfter(p, sorted, i + 1, prompt, k) ==
              if Applies(sorted[i], prompt, k) then RateOf(sorted[i].rates, k).value else RateAfter(p, sorted, i, prompt, k)
  {
    WinnerIsHighest(sorted[..i], prompt, k);
    assert sorted[..i + 1][..i] == sorted[..i];
  }

  // The four rates in force at a prompt size, found by overwriting them tier by tier.
  method EffectiveRates(p: Pricing, prompt: real) returns (r: Rates)
    ensures r.input == Some(EffectiveRate(p, prompt, Input)) && r.output == Some(EffectiveRate(p, prompt, Output))
    ensures r.cacheRead == Some(EffectiveRate(p, prompt, CacheRead))
    ensures r.cacheWrite == Some(EffectiveRate(p, prompt, CacheWrite))
  {
    hide Winner, StableSortOf;
    var input, output := OrElse(p.base.input, 0.0), OrElse(p.base.output, 0.0);
    var cacheRead := OrElse(p.base.cacheRead, OrElse(p.base.input, 0.0));
    var cacheWrite := OrElse(p.base.cacheWrite, OrElse(p.base.input, 0.0));
    var tiers := SortTiers(p.tiers);
    StartsAtTheBase(p, tiers, prompt);
    for i := 0 to |tiers|
      invariant input == RateAfter(p, tiers, i, prompt, Input)
      invariant output == RateAfter(p, tiers, i, prompt, Output)
      invariant cacheRead == RateAfter(p, tiers, i, prompt, CacheRead)
      invariant cacheWrite == RateAfter(p, tiers, i, prompt, CacheWrite)
    {
      AdvanceAll(p, tiers, i, prompt);
      hide RateAfter;
      if prompt > tiers[i].above {
        var t := tiers[i].rates;
        if t.input.Some? { input := t.input.value; }
        if t.output.Some? { output := t.output.value; }
        if t.cacheRead.Some? { cacheRead := t.cacheRead.value; }
        if t.cacheWrite.Some? { cacheWrite := t.cacheWrite.value; }
      }
    }
    EndsAtTheRates(p, tiers, prompt);
    r := Rates(Some(input), Some(output), Some(cacheRead), Some(cacheWrite));
  }

  lemma StartsAtTheBase(p: Pricing, sorted: seq<Tier>, prompt: real)
    ensures forall k :: RateAfter(p, sorted, 0, prompt, k) == BaseRate(p.base, k)
  {
  }

  lemma AdvanceAll(p: Pricing, sorted: seq<Tier>, i: nat, prompt: real)
    requires StableSortOf(sorted, p.tiers) && i < |sorted|
    ensures forall k :: RateAfter(p, sorted, i + 1, prompt, k) ==
                          if Applies(sorted[i], prompt, k) then RateOf(sorted[i].rates, k).value
                          else RateAfter(p, sorted, i, prompt, k)
  {
    forall k {
      NextTier(p, sorted, i, prompt, k);
    }
  }

  lemma EndsAtTheRates(p: Pricing, sorted: seq<Tier>, prompt: real)
    requires StableSortOf(sorted, p.tiers)
    ensures forall k :: RateAfter(p, sorted, |sorted|, prompt, k) == EffectiveRate(p, prompt, k)
  {
    assert sorted[..|sorted|] == sorted;
    forall k {
      SortingKeepsTheWinner(sorted, p.tiers, prompt, k);
    }
  }

  // --- Cost of a usage record ---------------------------------------------------------------------------

  const NO_RATES := Rates(None, None, None, None)
  const NO_PRICING := Pricing(NO_RATES, None, None, [])

  function Cached(u: Usage): real {
    OrElse(u.cacheRead, 0.0) + OrElse(u.cacheWrite, 0.0)
  }

  predicate Configured(p: Pricing) {
    p.base != NO_RATES || p.searchUnit.Some? || p.audioPerMinute.Some? || p.tiers != []
  }

  // Cents for an amount of tokens at a rate per million.
  function TokenCents(tokens: real, rate: real): real {
    tokens * (rate / 1000000.0)
  }

  function UnitCents(units: real, rate: real): real {
    units * rate
  }

  function AudioCents(seconds: real, rate: real): real {
    seconds / 60.0 * rate
  }

  // What a usage record costs: each token at the rate of its kind, cached tokens only once.
  function CostOf(pricing: Option<Pricing>, u: Usage): Breakdown {
    var p := if pricing.Some? then pricing.value else NO_PRICING;
    var input := TokenCents(Max(0.0, u.prompt - Cached(u)), EffectiveRate(p, u.prompt, Input));
    var cacheRead := TokenCents(OrElse(u.cacheRead, 0.0), EffectiveRate(p, u.prompt, CacheRead));
    var cacheWrite := TokenCents(OrElse(u.cacheWrite, 0.0), EffectiveRate(p, u.prompt, CacheWrite));
    var output := TokenCents(u.completion, EffectiveRate(p, u.prompt, Output));
    var searchUnit := UnitCents(OrElse(u.searchUnits, 0.0), OrElse(p.searchUnit, 0.0));
    var audio := AudioCents(OrElse(u.audioSeconds, 0.0), OrElse(p.audioPerMinute, 0.0));
    var sum := input + cacheRead + cacheWrite + output + searchUnit + audio;
    Breakdown(input, cacheRead, cacheWrite, output, searchUnit, audio, u.providerCost,
              if Configured(p) then sum else OrElse(u.providerCost, sum))
  }

  // What one more unit of each kind adds to the total: completion tokens, units and audio their own price,
  // and a prompt token that turns out to be cached the difference to the input rate.
  lemma EachKindIsChargedItsRate(p: Pricing, u: Usage, x: real)
    requires Configured(p) && x >= 0.0 && Cached(u) + x <= u.prompt
    ensures var cost := CostOf(Some(p), u).total;
            var read, write := OrElse(u.cacheRead, 0.0), OrElse(u.cacheWrite, 0.0);
            var inputRate := EffectiveRate(p, u.prompt, Input);
            CostOf(Some(p), u.(completion := u.completion + x)).total ==
              cost + TokenCents(x, EffectiveRate(p, u.prompt, Output)) &&
            CostOf(Some(p), u.(cacheRead := Some(read + x))).total ==
              cost + TokenCents(x, EffectiveRate(p, u.prompt, CacheRead)) - TokenCents(x, inputRate) &&
            CostOf(Some(p), u.(cacheWrite := Some(write + x))).total ==
              cost + TokenCents(x, EffectiveRate(p, u.prompt, CacheWrite)) - TokenCents(x, inputRate) &&
            CostOf(Some(p), u.(searchUnits := Some(OrElse(u.searchUnits, 0.0) + x))).total ==
              cost + UnitCents(x, OrElse(p.searchUnit, 0.0)) &&
            CostOf(Some(p), u.(audioSeconds := Some(OrElse(u.audioSeconds, 0.0) + x))).total ==
              cost + AudioCents(x, OrElse(p.audioPerMinute, 0.0))
  {
    hide EffectiveRate, Configured;
    TokensAdd(u.completion, x, EffectiveRate(p, u.prompt, Output));
    TokensAdd(OrElse(u.cacheRead, 0.0), x, EffectiveRate(p, u.prompt, CacheRead));
    TokensAdd(OrElse(u.cacheWrite, 0.0), x, EffectiveRate(p, u.prompt, CacheWrite));
    TokensAdd(u.prompt - Cached(u) - x, x, EffectiveRate(p, u.prompt, Input));
    UnitsAdd(OrElse(u.searchUnits, 0.0), x, OrElse(p.searchUnit, 0.0));
    AudioAdds(OrElse(u.audioSeconds, 0.0), x, OrElse(p.audioPerMinute, 0.0));
    hide TokenCents, UnitCents, AudioCents;
  }

  lemma TokensAdd(a: real, b: real, rate: real)
    ensures TokenCents(a + b, rate) == TokenCents(a, rate) + TokenCents(b, rate)
  {
  }

  lemma UnitsAdd(a: real, b: real, rate: real)
    ensures UnitCents(a + b, rate) == UnitCents(a, rate) + UnitCents(b, rate)
  {
  }

  lemma AudioAdds(a: real, b: real, rate: real)
    ensures AudioCents(a + b, rate) == AudioCents(a, rate) + AudioCents(b, rate)
  {
  }

  method ComputeCost(pricing: Option<Pricing>, u: Usage) returns (b: Breakdown)
    ensures b == CostOf(pricing, u)
  {
    hide EffectiveRate;
    var p := if pricing.Some? then pricing.value else NO_PRICING;
    var r := EffectiveRates(p, u.prompt);
    var cacheRead, cacheWrite := OrElse(u.cacheRead, 0.0), OrElse(u.cacheWrite, 0.0);
    var nonCached := Max(0.0, u.prompt - cacheRead - cacheWrite);
    var inputCents := nonCached * (r.input.value / 1000000.0);
    var cacheReadCents := cacheRead * (r.cacheRead.value / 1000000.0);
    var cacheWriteCents := cacheWrite * (r.cacheWrite.value / 1000000.0);
    var outputCents := u.completion * (r.output.value / 1000000.0);
    var searchUnitCents := OrElse(u.searchUnits, 0.0) * OrElse(p.searchUnit, 0.0);
    var audioCents := OrElse(u.audioSeconds, 0.0) / 60.0 * OrElse(p.audioPerMinute, 0.0);
    assert u.prompt - cacheRead - cacheWrite == u.prompt - Cached(u);
    assert inputCents == TokenCents(nonCached, EffectiveRate(p, u.prompt, Input));
    assert cacheReadCents == TokenCents(cacheRead, EffectiveRate(p, u.prompt, CacheRead));
    assert cacheWriteCents == TokenCents(cacheWrite, EffectiveRate(p, u.prompt, CacheWrite));
    assert outputCents == TokenCents(u.completion, EffectiveRate(p, u.prompt, Output));
    assert searchUnitCents == UnitCents(OrElse(u.searchUnits, 0.0), OrElse(p.searchUnit, 0.0));
    assert audioCents == AudioCents(OrElse(u.audioSeconds, 0.0), OrElse(p.audioPerMinute, 0.0));
    hide TokenCents, UnitCents, AudioCents;
    var calculated := inputCents + cacheReadCents + cacheWriteCents + outputCents + searchUnitCents + audioCents;
    var total := calculated;
    if !Configured(p) && u.providerCost.Some? { total := u.providerCost.value; }
    b := Breakdown(inputCents, cacheReadCents, cacheWriteCents, outputCents, searchUnitCents, audioCents,
                   u.providerCost, total);
  }

  // --- Admission ----------------------------------------------------------------------------------------

  function Present(o: Option<real>): seq<real> {
    if o.Some? then [o.value] else []
  }

  function Listed(r: Rates): seq<real> {
    Present(r.input) + Present(r.output) + Present(r.cacheRead) + Present(r.cacheWrite)
  }

  function TierRates(tiers: seq<Tier>): seq<real>
    decreases |tiers|
  {
    if tiers == [] then [] else Listed(tiers[0].rates) + TierRates(tiers[1..])
  }

  // Every token rate a pricing mentions.
  function AllRates(p: Pricing): seq<real> {
    Listed(p.base) + TierRates(p.tiers)
  }

  function Highest(rates: seq<real>): (m: real)
    requires rates != []
    ensures m in rates && forall r | r in rates :: r <= m
    decreases |rates|
  {
    assert forall r | r in rates :: r == rates[0] || r in rates[1..];
    if |rates| == 1 then rates[0] else Max(rates[0], Highest(rates[1..]))
  }

  // The amount reserved before a request runs; None when the pricing is unknown.
  function EstimateMaximumCostCents(pricing: Option<Pricing>, tokens: real, searchUnits: real, audioSeconds: real)
    : Option<real>
  {
    if pricing.None? then None
    else
      var p := pricing.value;
      var rates := AllRates(p);
      if rates == [] && p.searchUnit.None? && p.audioPerMinute.None? then None
      else
        var rate := if rates == [] then 0.0 else Highest(rates);
        Some(Max(0.0, tokens) * rate / 1000000.0 + UnitCents(Max(0.0, searchUnits), OrElse(p.searchUnit, 0.0)) +
             AudioCents(Max(0.0, audioSeconds), OrElse(p.audioPerMinute, 0.0)))
  }

  ghost predicate NonNegativePricing(p: Pricing) {
    (forall r | r in AllRates(p) :: r >= 0.0) && OrElse(p.searchUnit, 0.0) >= 0.0 && OrElse(p.audioPerMinute, 0.0) >= 0.0
  }

  ghost predicate NonNegativeUsage(u: Usage) {
    u.prompt >= 0.0 && u.completion >= 0.0 && OrElse(u.cacheRead, 0.0) >= 0.0 && OrElse(u.cacheWrite, 0.0) >= 0.0 &&
    OrElse(u.searchUnits, 0.0) >= 0.0 && OrElse(u.audioSeconds, 0.0) >= 0.0
  }

  lemma {:induction false} TierRatesAreListed(tiers: seq<Tier>, t: Tier, k: Kind)
    requires t in tiers && RateOf(t.rates, k).Some?
    ensures RateOf(t.rates, k).value in TierRates(tiers)
    decreases |tiers|
  {
    ListedHasEach(t.rates, k);
    if t != tiers[0] { TierRatesAreListed(tiers[1..], t, k); }
  }

  lemma ListedHasEach(r: Rates, k: Kind)
    requires RateOf(r, k).Some?
    ensures RateOf(r, k).value in Listed(r)
  {
    assert k.Input? ==> RateOf(r, k).value in Present(r.input);
    assert k.Output? ==> RateOf(r, k).value in Present(r.output);
    assert k.CacheRead? ==> RateOf(r, k).value in Present(r.cacheRead);
    assert k.CacheWrite? ==> RateOf(r, k).value in Present(r.cacheWrite);
  }

  // The rate the estimate uses.
  function MaximumRate(p: Pricing): real {
    if AllRates(p) == [] then 0.0 else Highest(AllRates(p))
  }

  // No rate in force exceeds the one the estimate uses, whatever the prompt size.
  lemma EffectiveRateIsBounded(p: Pricing, prompt: real, k: Kind)
    requires NonNegativePricing(p)
    ensures 0.0 <= EffectiveRate(p, prompt, k) <= MaximumRate(p)
  {
    WinnerIsHighest(p.tiers, prompt, k);
    var w := Winner(p.tiers, prompt, k);
    if w.Some? {
      TierRatesAreListed(p.tiers, w.value, k);
      assert EffectiveRate(p, prompt, k) in AllRates(p);
    } else {
      BaseRateIsListed(p, k);
    }
  }

  lemma BaseRateIsListed(p: Pricing, k: Kind)
    ensures BaseRate(p.base, k) == 0.0 || BaseRate(p.base, k) in AllRates(p)
  {
    if RateOf(p.base, k).Some? { ListedHasEach(p.base, k); }
    if RateOf(p.base, Input).Some? { ListedHasEach(p.base, Input); }
  }

  lemma Scale(tokens: real, rate: real, bound: real)
    requires tokens >= 0.0 && rate <= bound
    ensures TokenCents(tokens, rate) <= TokenCents(tokens, bound)
  {
    assert rate / 1000000.0 <= bound / 1000000.0;
  }

  lemma Times(a: real, b: real, x: real)
    requires a <= b && x >= 0.0
    ensures a * x <= b * x
  {
  }

  // The tokens a usage record is charged for.
  function Billed(u: Usage): real {
    Max(u.prompt, Cached(u)) + u.completion
  }

  lemma TokensCostAtMost(p: Pricing, u: Usage)
    requires NonNegativePricing(p) && NonNegativeUsage(u)
    ensures var c := CostOf(Some(p), u);
            c.input + c.cacheRead + c.cacheWrite + c.output <= TokenCents(Billed(u), MaximumRate(p))
  {
    hide EffectiveRate, MaximumRate, NonNegativePricing, TokenCents, Configured;
    var top := MaximumRate(p);
    var uncached, read, write := Max(0.0, u.prompt - Cached(u)), OrElse(u.cacheRead, 0.0), OrElse(u.cacheWrite, 0.0);
    EffectiveRateIsBounded(p, u.prompt, Input);
    EffectiveRateIsBounded(p, u.prompt, Output);
    EffectiveRateIsBounded(p, u.prompt, CacheRead);
    EffectiveRateIsBounded(p, u.prompt, CacheWrite);
    Scale(uncached, EffectiveRate(p, u.prompt, Input), top);
    Scale(read, EffectiveRate(p, u.prompt, CacheRead), top);
    Scale(write, EffectiveRate(p, u.prompt, CacheWrite), top);
    Scale(u.completion, EffectiveRate(p, u.prompt, Output), top);
    SumOfFour(uncached, read, write, u.completion, top);
    assert uncached + read + write + u.completion == Billed(u);
  }

  lemma SumOfFour(a: real, b: real, c: real, d: real, rate: real)
    ensures TokenCents(a, rate) + TokenCents(b, rate) + TokenCents(c, rate) + TokenCents(d, rate) ==
              TokenCents(a + b + c + d, rate)
  {
  }

  // What was used was reserved: the larger of the prompt and its cached tokens, plus the completion.
  ghost predicate Covered(u: Usage, tokens: real, searchUnits: real, audioSeconds: real) {
    Billed(u) <= Max(0.0, tokens) && OrElse(u.searchUnits, 0.0) <= Max(0.0, searchUnits) &&
    OrElse(u.audioSeconds, 0.0) <= Max(0.0, audioSeconds)
  }

  lemma CoveredUsageStaysWithinTheEstimate(p: Pricing, u: Usage, tokens: real, searchUnits: real, audioSeconds: real)
    requires NonNegativePricing(p) && NonNegativeUsage(u) && Covered(u, tokens, searchUnits, audioSeconds)
    requires EstimateMaximumCostCents(Some(p), tokens, searchUnits, audioSeconds).Some?
    ensures CostOf(Some(p), u).total <= EstimateMaximumCostCents(Some(p), tokens, searchUnits, audioSeconds).value
  {
    EstimatedIsConfigured(p);
    hide EffectiveRate, AllRates, MaximumRate, TokenCents, Billed, CostOf, NonNegativePricing, Configured;
    hide EstimateMaximumCostCents, OrElse, UnitCents, AudioCents;
    MaximumRateIsNonNegative(p);
    TokensCostAtMost(p, u);
    TokensOfEstimate(p, tokens, searchUnits, audioSeconds);
    TotalIsTheSum(p, u);
    MoreTokensCostMore(Billed(u), Max(0.0, tokens), MaximumRate(p));
    MoreUnitsCostMore(OrElse(u.searchUnits, 0.0), Max(0.0, searchUnits), OrElse(p.searchUnit, 0.0));
    MoreAudioCostsMore(OrElse(u.audioSeconds, 0.0), Max(0.0, audioSeconds), OrElse(p.audioPerMinute, 0.0));
  }

  lemma MoreTokensCostMore(a: real, b: real, rate: real)
    requires a <= b && rate >= 0.0
    ensures TokenCents(a, rate) <= TokenCents(b, rate)
  {
    Times(a, b, rate / 1000000.0);
  }

  lemma MoreUnitsCostMore(a: real, b: real, rate: real)
    requires a <= b && rate >= 0.0
    ensures UnitCents(a, rate) <= UnitCents(b, rate)
  {
    Times(a, b, rate);
  }

  lemma MoreAudioCostsMore(a: real, b: real, rate: real)
    requires a <= b && rate >= 0.0
    ensures AudioCents(a, rate) <= AudioCents(b, rate)
  {
    Times(a / 60.0, b / 60.0, rate);
  }

  lemma TotalIsTheSum(p: Pricing, u: Usage)
    requires Configured(p)
    ensures var c := CostOf(Some(p), u);
            c.total == c.input + c.cacheRead + c.cacheWrite + c.output + c.searchUnit + c.audio &&
            c.searchUnit == UnitCents(OrElse(u.searchUnits, 0.0), OrElse(p.searchUnit, 0.0)) &&
            c.audio == AudioCents(OrElse(u.audioSeconds, 0.0), OrElse(p.audioPerMinute, 0.0))
  {
    hide EffectiveRate, TokenCents;
  }

  lemma EstimatedIsConfigured(p: Pricing)
    requires AllRates(p) != [] || p.searchUnit.Some? || p.audioPerMinute.Some?
    ensures Configured(p)
  {
  }

  lemma MaximumRateIsNonNegative(p: Pricing)
    requires NonNegativePricing(p)
    ensures MaximumRate(p) >= 0.0 && OrElse(p.searchUnit, 0.0) >= 0.0 && OrElse(p.audioPerMinute, 0.0) >= 0.0
  {
  }

  lemma TokensOfEstimate(p: Pricing, tokens: real, searchUnits: real, audioSeconds: real)
    requires EstimateMaximumCostCents(Some(p), tokens, searchUnits, audioSeconds).Some?
    ensures EstimateMaximumCostCents(Some(p), tokens, searchUnits, audioSeconds).value ==
              TokenCents(Max(0.0, tokens), MaximumRate(p)) + UnitCents(Max(0.0, searchUnits), OrElse(p.searchUnit, 0.0)) +
              AudioCents(Max(0.0, audioSeconds), OrElse(p.audioPerMinute, 0.0))
  {
    hide AllRates;
    assert Max(0.0, tokens) * MaximumRate(p) / 1000000.0 == Max(0.0, tokens) * (MaximumRate(p) / 1000000.0);
  }

  // One flat rate of a cent per token, with nothing for units or audio; and the two opposites.
  const FLAT := Pricing(Rates(Some(1000000.0), Some(1000000.0), Some(1000000.0), Some(1000000.0)), None, None, [])
  const PER_UNIT := Pricing(NO_RATES, Some(1.0), None, [])
  const PER_MINUTE := Pricing(NO_RATES, None, Some(60.0), [])

  ghost predicate Sound(p: Pricing, u: Usage, tokens: real, searchUnits: real, audioSeconds: real) {
    var e := EstimateMaximumCostCents(Some(p), tokens, searchUnits, audioSeconds);
    e.Some? ==> CostOf(Some(p), u).total <= e.value
  }

  // Whether the estimate bounds the cost under every pricing depends on the usage and the reservation alone.
  lemma AdmissionIsSoundExactlyWhenCovered(u: Usage, tokens: real, searchUnits: real, audioSeconds: real)
    requires NonNegativeUsage(u)
    ensures (forall p | NonNegativePricing(p) :: Sound(p, u, tokens, searchUnits, audioSeconds)) <==>
              Covered(u, tokens, searchUnits, audioSeconds)
  {
    if Covered(u, tokens, searchUnits, audioSeconds) {
      forall p | NonNegativePricing(p)
        ensures Sound(p, u, tokens, searchUnits, audioSeconds)
      {
        if EstimateMaximumCostCents(Some(p), tokens, searchUnits, audioSeconds).Some? {
          CoveredUsageStaysWithinTheEstimate(p, u, tokens, searchUnits, audioSeconds);
        }
      }
    } else {
      FlatDecides(u, tokens, searchUnits, audioSeconds);
      UnitsDecide(u, tokens, searchUnits, audioSeconds);
      AudioDecides(u, tokens, searchUnits, audioSeconds);
    }
  }

  lemma FlatCosts(u: Usage)
    ensures CostOf(Some(FLAT), u).total == Billed(u)
  {
    assert forall k :: EffectiveRate(FLAT, u.prompt, k) == 1000000.0;
    assert forall x :: TokenCents(x, 1000000.0) == x;
    hide EffectiveRate, TokenCents;
  }

  lemma FlatReserves(tokens: real, searchUnits: real, audioSeconds: real)
    ensures NonNegativePricing(FLAT)
    ensures EstimateMaximumCostCents(Some(FLAT), tokens, searchUnits, audioSeconds) == Some(Max(0.0, tokens))
  {
    assert AllRates(FLAT) == [1000000.0, 1000000.0, 1000000.0, 1000000.0];
    assert MaximumRate(FLAT) == 1000000.0;
    TokensOfEstimate(FLAT, tokens, searchUnits, audioSeconds);
    assert forall x :: TokenCents(x, 1000000.0) == x;
    assert UnitCents(Max(0.0, searchUnits), 0.0) == AudioCents(Max(0.0, audioSeconds), 0.0) == 0.0;
    hide AllRates, MaximumRate, TokenCents;
  }

  lemma FlatDecides(u: Usage, tokens: real, searchUnits: real, audioSeconds: real)
    ensures NonNegativePricing(FLAT)
    ensures Sound(FLAT, u, tokens, searchUnits, audioSeconds) <==> Billed(u) <= Max(0.0, tokens)
  {
    FlatCosts(u);
    FlatReserves(tokens, searchUnits, audioSeconds);
  }

  lemma UnitsDecide(u: Usage, tokens: real, searchUnits: real, audioSeconds: real)
    requires NonNegativeUsage(u)
    ensures NonNegativePricing(PER_UNIT)
    ensures Sound(PER_UNIT, u, tokens, searchUnits, audioSeconds) <==>
              OrElse(u.searchUnits, 0.0) <= Max(0.0, searchUnits)
  {
    assert AllRates(PER_UNIT) == [];
  }

  lemma AudioDecides(u: Usage, tokens: real, searchUnits: real, audioSeconds: real)
    requires NonNegativeUsage(u)
    ensures NonNegativePricing(PER_MINUTE)
    ensures Sound(PER_MINUTE, u, tokens, searchUnits, audioSeconds) <==>
              OrElse(u.audioSeconds, 0.0) <= Max(0.0, audioSeconds)
  {
    assert AllRates(PER_MINUTE) == [];
  }

  // Where cached tokens are part of the prompt, reserving prompt and completion tokens suffices. A provider
  // that reports more cached tokens than prompt tokens is charged for tokens nobody reserved.
  lemma CachedWithinThePromptIsCovered(u: Usage, tokens: real)
    requires NonNegativeUsage(u) && Cached(u) <= u.prompt && u.prompt + u.completion <= tokens
    ensures Covered(u, tokens, OrElse(u.searchUnits, 0.0), OrElse(u.audioSeconds, 0.0))
  {
  }

  lemma OverreportedCacheEscapesTheEstimate()
    ensures exists p: Pricing, u: Usage ::
              NonNegativePricing(p) && NonNegativeUsage(u) && !Sound(p, u, u.prompt + u.completion, 0.0, 0.0)
  {
    var u := Usage(1.0, 0.0, Some(2.0), None, None, None, None);
    FlatDecides(u, 1.0, 0.0, 0.0);
    assert !Sound(FLAT, u, u.prompt + u.completion, 0.0, 0.0);
  }
}
