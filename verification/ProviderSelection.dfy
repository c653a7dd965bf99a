/** Choosing one provider's price per model and turning it into local ratios
    (convertModelsDevToRatioData in controller/ratio_sync.go), over exact real prices. */
module ProviderSelection {
  import opened Basics

  datatype Cost = Cost(input: Option<real>, output: Option<real>, cacheRead: Option<real>)

  datatype Candidate = Candidate(provider: string, input: real, output: Option<real>, cacheRead: Option<real>)

  /** Provider -> model -> cost, as decoded. */
  type Upstream = map<string, map<string, Cost>>

  const USD := 500.0
  const COST_BASE := 1000.0

  /** Byte order on strings, as sort.Strings and `<` have it. */
  predicate Less(a: string, b: string) {
    b != "" && (a == "" || a[0] < b[0] || (a[0] == b[0] && Less(a[1..], b[1..])))
  }

  lemma {:induction false} LessIsAsymmetric(a: string, b: string)
    ensures !(Less(a, b) && Less(b, a))
  {
    if a != "" && b != "" { LessIsAsymmetric(a[1..], b[1..]); }
  }

  /** Less is the byte order: a proper prefix comes first, otherwise the first difference decides. */
  lemma {:induction false} LessIsByteOrder(p: string, a: string, b: string)
    ensures Less(p, p + a) <==> a != ""
    ensures !Less(p + a, p)
    ensures a != "" && b != "" && a[0] != b[0] ==> (Less(p + a, p + b) <==> a[0] < b[0])
  {
    if p == "" {
      assert p + a == a && p + b == b;
    } else {
      assert (p + a)[1..] == p[1..] + a && (p + b)[1..] == p[1..] + b;
      LessIsByteOrder(p[1..], a, b);
    }
  }

  predicate Ascending(names: seq<string>) { forall i, j :: 0 <= i < j < |names| ==> Less(names[i], names[j]) }

  /** A cost that can be turned into a ratio: no negative price, no free input with paid output. */
  function Build(provider: string, cost: Cost): Option<Candidate> {
    if cost.input.None? || cost.input.value < 0.0 then None
    else if cost.output.Some? && cost.output.value < 0.0 then None
    else if cost.input.value == 0.0 && cost.output.Some? && cost.output.value > 0.0 then None
    else Some(Candidate(provider, cost.input.value, cost.output,
                        if cost.cacheRead.Some? && cost.cacheRead.value >= 0.0 then cost.cacheRead else None))
  }

  predicate ShouldReplace(current: Candidate, next: Candidate) {
    if (current.input > 0.0) != (next.input > 0.0) then next.input > 0.0
    else if next.input > 0.0 && !NearlyEqual(next.input, current.input) then next.input < current.input
    else Less(next.provider, current.provider)
  }

  function Offer(upstream: Upstream, provider: string, model: string): Option<Candidate> {
    if provider in upstream && model in upstream[provider] then Build(provider, upstream[provider][model]) else None
  }

  /** The candidate left after scanning the providers in the given order. */
  function Scan(upstream: Upstream, providers: seq<string>, model: string): Option<Candidate> {
    if providers == [] then None else
    var current := Scan(upstream, providers[..|providers| - 1], model);
    var next := Offer(upstream, providers[|providers| - 1], model);
    if next.None? then current
    else if current.None? || ShouldReplace(current.value, next.value) then next else current
  }

  /** The selection loops of the source; sort.Strings has put the providers in order. */
  method SelectCandidates(upstream: Upstream, providers: seq<string>) returns (selected: map<string, Candidate>)
    requires forall i :: 0 <= i < |providers| ==> providers[i] in upstream
    ensures forall m :: m in selected <==> Scan(upstream, providers, m).Some?
    ensures forall m :: m in selected ==> selected[m] == Scan(upstream, providers, m).value
  {
    selected := map[];
    for i := 0 to |providers|
      invariant forall m :: m in selected <==> Scan(upstream, providers[..i], m).Some?
      invariant forall m :: m in selected ==> selected[m] == Scan(upstream, providers[..i], m).value
    {
      var provider := providers[i];
      ghost var before := selected;
      assert providers[..i + 1][..i] == providers[..i];
      var pending := upstream[provider].Keys;
      while pending != {}
        invariant pending <= upstream[provider].Keys
        invariant forall m :: m !in upstream[provider] || m in pending ==>
                    (m in selected <==> m in before) && (m in selected ==> selected[m] == before[m])
        invariant forall m :: m in upstream[provider] && m !in pending ==>
                    (m in selected <==> Scan(upstream, providers[..i + 1], m).Some?) &&
                    (m in selected ==> selected[m] == Scan(upstream, providers[..i + 1], m).value)
        decreases pending
      {
        var name :| name in pending;
        pending := pending - {name};
        var candidate := Build(provider, upstream[provider][name]);
        if candidate.Some? {
          if name !in selected || ShouldReplace(selected[name], candidate.value) {
            selected := selected[name := candidate.value];
          }
        }
      }
    }
    assert providers[..|providers|] == providers;
  }

  // ---------- the epsilon does not accumulate ----------

  lemma {:induction false} ScanIsAnOffer(upstream: Upstream, providers: seq<string>, model: string)
    requires Scan(upstream, providers, model).Some?
    ensures exists i :: 0 <= i < |providers| && Offer(upstream, providers[i], model) == Scan(upstream, providers, model)
  {
    var n := |providers| - 1;
    if Offer(upstream, providers[n], model) != Scan(upstream, providers, model) {
      ScanIsAnOffer(upstream, providers[..n], model);
      var i :| 0 <= i < n && Offer(upstream, providers[..n][i], model) == Scan(upstream, providers[..n], model);
      assert Offer(upstream, providers[i], model) == Scan(upstream, providers, model);
    }
  }

  /** Scanning in ascending order never uses the name tie-break: a candidate is replaced only
      by the first non-zero price or by a price lower by a full epsilon. */
  lemma TieBreakNeverFires(upstream: Upstream, providers: seq<string>, model: string)
    requires Ascending(providers) && providers != []
    ensures var n := |providers| - 1;
      var current, next := Scan(upstream, providers[..n], model), Offer(upstream, providers[n], model);
      current.Some? && next.Some? && ShouldReplace(current.value, next.value) ==>
        next.value.input > 0.0 && (current.value.input == 0.0 || next.value.input <= current.value.input - EPSILON)
  {
    var n := |providers| - 1;
    var current, next := Scan(upstream, providers[..n], model), Offer(upstream, providers[n], model);
    if current.Some? && next.Some? {
      ScanIsAnOffer(upstream, providers[..n], model);
      var i :| 0 <= i < n && Offer(upstream, providers[..n][i], model) == current;
      LessIsAsymmetric(providers[i], providers[n]);
    }
  }

  /** The chosen price against every offer: something is chosen as soon as anything is offered,
      it is not free unless everything is, and it undercuts every paid offer up to one epsilon. */
  lemma {:induction false} ScanIsCheapest(upstream: Upstream, providers: seq<string>, model: string)
    requires Ascending(providers)
    ensures Scan(upstream, providers, model).Some? ==> Scan(upstream, providers, model).value.input >= 0.0
    ensures forall i :: 0 <= i < |providers| && Offer(upstream, providers[i], model).Some? ==>
      var best, offer := Scan(upstream, providers, model), Offer(upstream, providers[i], model).value;
      best.Some? &&
      (offer.input > 0.0 ==> 0.0 < best.value.input < offer.input + EPSILON)
  {
    if providers != [] {
      var n := |providers| - 1;
      ScanIsCheapest(upstream, providers[..n], model);
      TieBreakNeverFires(upstream, providers, model);
      forall i | 0 <= i < |providers| && Offer(upstream, providers[i], model).Some?
        ensures var best, offer := Scan(upstream, providers, model), Offer(upstream, providers[i], model).value;
          best.Some? && (offer.input > 0.0 ==> 0.0 < best.value.input < offer.input + EPSILON)
      {
        if i < n { assert providers[..n][i] == providers[i]; }
      }
    }
  }

  /** NearlyEqual is not transitive, so the order matters: scanning three providers in
      descending order drifts past one epsilon. */
  lemma DescendingScanDrifts()
    ensures var up := map["c" := map["m" := Cost(Some(1.0), None, None)],
                          "b" := map["m" := Cost(Some(1.0000000009), None, None)],
                          "a" := map["m" := Cost(Some(1.0000000018), None, None)]];
      Scan(up, ["c", "b", "a"], "m") == Offer(up, "a", "m") &&
      Offer(up, "a", "m").value.input > Offer(up, "c", "m").value.input + EPSILON
  {
    var up := map["c" := map["m" := Cost(Some(1.0), None, None)],
                  "b" := map["m" := Cost(Some(1.0000000009), None, None)],
                  "a" := map["m" := Cost(Some(1.0000000018), None, None)]];
    assert ["c", "b", "a"][..2] == ["c", "b"] && ["c", "b"][..1] == ["c"] && ["c"][..0] == [];
    assert Scan(up, ["c"], "m") == Offer(up, "c", "m");
    assert Scan(up, ["c", "b"], "m") == Offer(up, "b", "m");
  }

  // ---------- the published ratios ----------

  /** math.Round(v * 1e6) / 1e6 for the non-negative values that occur. */
  function RoundRatio(v: real): real { (v * 1000000.0 + 0.5).Floor as real / 1000000.0 }

  /** The result is the nearest multiple of a millionth, the upper one of two. */
  lemma RoundingError(v: real)
    ensures v - 0.0000005 < RoundRatio(v) <= v + 0.0000005
    ensures v >= 0.0 ==> RoundRatio(v) >= 0.0
    ensures RoundRatio(v) * 1000000.0 == (RoundRatio(v) * 1000000.0).Floor as real
  {
    assert RoundRatio(v) * 1000000.0 == (v * 1000000.0 + 0.5).Floor as real;
  }

  datatype Ratios = Ratios(model: map<string, real>, completion: map<string, real>, cache: map<string, real>)

  /** A free model gets ratio zero and nothing else; a paid one gets its price in ratio units
      and its other prices relative to the input price. */
  predicate Published(c: Candidate, m: string, r: Ratios) {
    && m in r.model
    && (c.input == 0.0 ==> r.model[m] == 0.0 && m !in r.completion && m !in r.cache)
    && (c.input != 0.0 ==>
          && r.model[m] == RoundRatio(c.input * USD / COST_BASE)
          && (m in r.completion <==> c.output.Some?) && (m in r.cache <==> c.cacheRead.Some?)
          && (m in r.completion ==> r.completion[m] == RoundRatio(c.output.value / c.input))
          && (m in r.cache ==> r.cache[m] == RoundRatio(c.cacheRead.value / c.input)))
  }

  method ToRatios(selected: map<string, Candidate>) returns (r: Ratios)
    ensures r.model.Keys == selected.Keys && r.completion.Keys + r.cache.Keys <= selected.Keys
    ensures forall m :: m in selected ==> Published(selected[m], m, r)
  {
    r := Ratios(map[], map[], map[]);
    var pending := selected.Keys;
    while pending != {}
      invariant pending <= selected.Keys
      invariant r.model.Keys == selected.Keys - pending && r.completion.Keys + r.cache.Keys <= r.model.Keys
      invariant forall m :: m in selected && m !in pending ==> Published(selected[m], m, r)
      decreases pending
    {
      var name :| name in pending;
      var c := selected[name];
      ghost var before := r;
      if c.input == 0.0 {
        r := r.(model := r.model[name := 0.0]);
      } else {
        r := r.(model := r.model[name := RoundRatio(c.input * USD / COST_BASE)]);
        if c.output.Some? {
          r := r.(completion := r.completion[name := RoundRatio(c.output.value / c.input)]);
        }
        if c.cacheRead.Some? {
          r := r.(cache := r.cache[name := RoundRatio(c.cacheRead.value / c.input)]);
        }
      }
      assert Published(c, name, r);
      forall m | m in selected && m !in pending ensures Published(selected[m], m, r) {
        assert Published(selected[m], m, before) && m != name;
      }
      pending := pending - {name};
    }
  }

  /** `None` is the source's error for an empty response or one without any usable price. */
  method Convert(upstream: Upstream, providers: seq<string>) returns (r: Option<Ratios>)
    requires Ascending(providers) && (set p | p in providers) == upstream.Keys
    ensures r.None? <==> forall m :: Scan(upstream, providers, m).None?
    ensures r.Some? ==>
      && (forall m :: m in r.value.model <==> Scan(upstream, providers, m).Some?)
      && (forall m :: m in r.value.model ==> Published(Scan(upstream, providers, m).value, m, r.value))
      && r.value.completion.Keys + r.value.cache.Keys <= r.value.model.Keys
  {
    EveryProviderIsKnown(upstream, providers);
    if |upstream| == 0 { return None; }
    var selected := SelectCandidates(upstream, providers);
    if |selected| == 0 { return None; }
    var ratios := ToRatios(selected);
    forall m | m in ratios.model ensures Published(Scan(upstream, providers, m).value, m, ratios) {
      assert Published(selected[m], m, ratios);
    }
    assert selected.Keys != {};
    ghost var some :| some in selected.Keys;
    assert Scan(upstream, providers, some).Some?;
    return Some(ratios);
  }

  lemma EveryProviderIsKnown(upstream: Upstream, providers: seq<string>)
    requires (set p | p in providers) == upstream.Keys
    ensures forall i :: 0 <= i < |providers| ==> providers[i] in upstream
    ensures |upstream| == 0 ==> providers == []
  {
    forall i | 0 <= i < |providers| ensures providers[i] in upstream {
      assert providers[i] in set p | p in providers;
    }
    if providers != [] { assert providers[0] in upstream.Keys; }
  }

  /** End to end: the published ratio of a model is at most half the price of every paid offer,
      plus half an epsilon and the rounding error, whatever the number of providers. */
  lemma PublishedRatioBound(upstream: Upstream, providers: seq<string>, model: string, i: nat)
    requires Ascending(providers) && i < |providers|
    requires Offer(upstream, providers[i], model).Some? && Offer(upstream, providers[i], model).value.input > 0.0
    ensures Scan(upstream, providers, model).Some?
    ensures var c := Scan(upstream, providers, model).value;
      c.input != 0.0 &&
      RoundRatio(c.input * USD / COST_BASE) <
        (Offer(upstream, providers[i], model).value.input + EPSILON) / 2.0 + 0.0000005
  {
    ScanIsCheapest(upstream, providers, model);
    RoundingError(Scan(upstream, providers, model).value.input * USD / COST_BASE);
  }

  // ---------- the published ratios in terms of the upstream prices ----------

  /** Costs that can be turned into a ratio at all. */
  predicate Usable(cost: Cost) {
    && cost.input.Some? && cost.input.value >= 0.0
    && (cost.output.Some? ==> cost.output.value >= 0.0 && (cost.input.value > 0.0 || cost.output.value == 0.0))
  }

  predicate Priced(upstream: Upstream, provider: string, model: string) {
    provider in upstream && model in upstream[provider] && Usable(upstream[provider][model])
  }

  lemma OfferFacts(upstream: Upstream, provider: string, model: string)
    ensures Offer(upstream, provider, model).Some? <==> Priced(upstream, provider, model)
    ensures Priced(upstream, provider, model) ==>
              var c, cost := Offer(upstream, provider, model).value, upstream[provider][model];
              && c.provider == provider && c.input == cost.input.value && c.output == cost.output
              && c.cacheRead == if cost.cacheRead.Some? && cost.cacheRead.value >= 0.0 then cost.cacheRead else None
  {
  }

  /** A model gets a ratio exactly if some provider has a usable price for it. */
  lemma ChosenIff(upstream: Upstream, providers: seq<string>, model: string)
    requires Ascending(providers)
    ensures Scan(upstream, providers, model).Some? <==>
            exists i :: 0 <= i < |providers| && Priced(upstream, providers[i], model)
  {
    ScanIsCheapest(upstream, providers, model);
    if Scan(upstream, providers, model).Some? {
      ScanIsAnOffer(upstream, providers, model);
      var i :| 0 <= i < |providers| && Offer(upstream, providers[i], model) == Scan(upstream, providers, model);
      OfferFacts(upstream, providers[i], model);
    }
    if i :| 0 <= i < |providers| && Priced(upstream, providers[i], model) {
      OfferFacts(upstream, providers[i], model);
    }
  }

  predicate Close(published: real, exact: real) { exact - 0.0000005 < published <= exact + 0.0000005 }

  /** What is published for a provider's cost: half the input price per million, and output and
      cache prices relative to it, each to the nearest millionth; only zero for a free model. */
  predicate PublishedFor(cost: Cost, model: string, r: Ratios)
    requires Usable(cost)
  {
    var price := cost.input.value;
    && model in r.model
    && (price == 0.0 ==> r.model[model] == 0.0 && model !in r.completion && model !in r.cache)
    && (price > 0.0 ==>
          && Close(r.model[model], price / 2.0)
          && (model in r.completion <==> cost.output.Some?)
          && (model in r.completion ==> Close(r.completion[model], cost.output.value / price))
          && (model in r.cache <==> cost.cacheRead.Some? && cost.cacheRead.value >= 0.0)
          && (model in r.cache ==> Close(r.cache[model], cost.cacheRead.value / price)))
  }

  /** Every published model shows the prices of one provider that has a usable price for it. */
  lemma PublishedFromOneProvider(upstream: Upstream, providers: seq<string>, model: string, r: Ratios)
    requires Scan(upstream, providers, model).Some? && Published(Scan(upstream, providers, model).value, model, r)
    ensures exists i :: 0 <= i < |providers| && Priced(upstream, providers[i], model) &&
                        PublishedFor(upstream[providers[i]][model], model, r)
  {
    ScanIsAnOffer(upstream, providers, model);
    var i :| 0 <= i < |providers| && Offer(upstream, providers[i], model) == Scan(upstream, providers, model);
    OfferFacts(upstream, providers[i], model);
    PublishedMeans(upstream[providers[i]][model], Scan(upstream, providers, model).value, model, r);
  }

  lemma PublishedMeans(cost: Cost, c: Candidate, model: string, r: Ratios)
    requires Usable(cost) && c.input == cost.input.value && c.output == cost.output && Published(c, model, r)
    requires c.cacheRead == if cost.cacheRead.Some? && cost.cacheRead.value >= 0.0 then cost.cacheRead else None
    ensures PublishedFor(cost, model, r)
  {
    if c.input > 0.0 {
      assert c.input * USD / COST_BASE == c.input / 2.0;
      RoundingError(c.input / 2.0);
      if c.output.Some? { RoundingError(c.output.value / c.input); }
      if c.cacheRead.Some? { RoundingError(c.cacheRead.value / c.input); }
    }
  }
}
