/** Cost routing: when a query leaves its strict strategy for local execution. Costs are reals. */
module CostRouting {
  import opened GoBasics
  import opened NativePlanning

  datatype Policy = Strict | CostShadow | CostPrefer

  datatype CostModel = CostModel(
    maxLocalInputSamples: int,
    maxLocalInputSamplesRangeAggregation: int,
    maxLocalOutputPoints: int,
    maxLocalOutputSeries: int,
    maxLocalRoundTrips: int,
    minRelativeLocalRatio: real,
    minAbsoluteWinMS: real)

  function DefaultCostModel(): CostModel {
    CostModel(50_000, 1_500_000, 10_000, 5_000, 2, 0.70, 3.0)
  }

  /** The shape of a query and its estimates. */
  datatype CostClass = CostClass(
    endpoint: string, family: string,
    selectorCount: int, estimatedSeries: int, estimatedInputSamples: int, estimatedOutputPoints: int,
    rangePointsPerSeries: int, nativeRoundTrips: int, localRoundTrips: int,
    flags: Flags, estimates: EstimateState)

  datatype Flags = Flags(
    vectorJoin: bool, subquery: bool, histogram: bool, aggregation: bool,
    rangeFunction: bool, repeatedRangeFunc: bool, selectionAgg: bool, labelMutation: bool)

  datatype EstimateState = EstimateState(fresh': bool, missing: int, stale: int, complexityBand: string)

  datatype Cost = Cost(native: real, local: real)

  datatype RoutingInfo = RoutingInfo(
    policy: Policy, strictStrategy: string, selectedStrategy: string, wouldSelect: string,
    decision: string, reason: string, missing: seq<string>, capHits: seq<string>, cost: Option<Cost>)

  datatype CapEvaluation = CapEvaluation(name: string, estimate: int, limit: int)

  predicate Exceeded(cap: CapEvaluation) {
    cap.estimate > cap.limit
  }

  // ---- Shape predicates -----------------------------------------------------------------

  predicate PlainRangeAggregation(c: CostClass) {
    && c.flags.aggregation && !c.flags.rangeFunction && !c.flags.histogram && !c.flags.selectionAgg
    && !c.flags.vectorJoin && !c.flags.subquery && c.selectorCount == 1
  }

  function MaxLocalInputSamplesLimit(m: CostModel, c: CostClass): int {
    if c.endpoint == "query_range" && c.family == "aggregation" && PlainRangeAggregation(c)
    then m.maxLocalInputSamplesRangeAggregation
    else m.maxLocalInputSamples
  }

  function MissingEstimateFields(c: CostClass): seq<string> {
    if c.selectorCount == 0 || c.estimatedSeries != 0 then []
    else if c.estimates.fresh' && c.estimates.missing == 0 && c.estimates.stale == 0 then []
    else if c.estimates.stale > 0 then ["selector_stats_stale"] else ["selector_stats"]
  }

  function CapEvaluations(m: CostModel, c: CostClass): seq<CapEvaluation> {
    [CapEvaluation("maxLocalInputSamples", c.estimatedInputSamples, MaxLocalInputSamplesLimit(m, c)),
     CapEvaluation("maxLocalOutputPoints", c.estimatedOutputPoints, m.maxLocalOutputPoints),
     CapEvaluation("maxLocalOutputSeries", c.estimatedSeries, m.maxLocalOutputSeries),
     CapEvaluation("maxLocalRoundTrips", c.localRoundTrips, m.maxLocalRoundTrips)]
    + (if c.flags.subquery then [CapEvaluation("subquery", 1, 0)] else [])
    + (if c.flags.vectorJoin then [CapEvaluation("highCardinalityVectorJoin", c.estimatedSeries, 1000)] else [])
    + (if c.family != "range_selector" && c.rangePointsPerSeries > 0
       then [CapEvaluation("rangePointsPerSeries", c.rangePointsPerSeries, 240)] else [])
  }

  function FamilyBases(family: string): (real, real) {
    if family == "selector" || family == "range_selector" then (24.0, 7.0)
    else if family == "rate" || family == "range_rate" || family == "increase" then (30.0, 20.0)
    else if family == "binary" then (45.0, 25.0)
    else if family == "histogram_quantile" then (150.0, 35.0)
    else if family == "aggregation" then (40.0, 25.0)
    else if family == "subquery" then (55.0, 24.0)
    else (0.0, 0.0)
  }

  function NativeCost(c: CostClass): real {
    FamilyBases(c.family).0 + c.estimatedInputSamples as real / 10_000.0 + c.estimatedOutputPoints as real / 20_000.0
    + c.nativeRoundTrips as real * 2.0
  }

  function LocalCost(c: CostClass): real {
    FamilyBases(c.family).1 + c.estimatedInputSamples as real / 50_000.0 + c.estimatedOutputPoints as real / 50_000.0
    + c.localRoundTrips as real * 2.0
  }

  function EstimateRoutingCost(c: CostClass): Option<Cost> {
    if FamilyBases(c.family).0 == 0.0 || FamilyBases(c.family).1 == 0.0 then None
    else Some(Cost(NativeCost(c), LocalCost(c)))
  }

  predicate LocalCandidateFamily(c: CostClass) {
    if c.family == "selector" then c.endpoint == "query"
    else if c.family == "rate" || c.family == "increase" then c.endpoint == "query" && c.selectorCount == 1
    else if c.family == "binary" then
      c.endpoint == "query" && c.selectorCount == 2 && c.flags.repeatedRangeFunc && !c.flags.vectorJoin
    else if c.family == "histogram_quantile" then c.endpoint == "query" && !c.flags.vectorJoin
    else if c.family == "aggregation" then
      if c.endpoint == "query" then !c.flags.histogram && !c.flags.selectionAgg && !c.flags.vectorJoin
      else c.endpoint == "query_range" && PlainRangeAggregation(c)
    else if c.family == "range_selector" then 0 < c.rangePointsPerSeries <= 60
    else
      && c.family == "subquery" && c.endpoint == "query" && c.flags.subquery && c.selectorCount == 1
      && !c.flags.vectorJoin
  }

  function FamilyGate(c: CostClass): string {
    if c.family == "selector" then "selector_instant"
    else if c.family == "rate" || c.family == "increase" then "rate_instant"
    else if c.family == "binary" then
      if c.flags.repeatedRangeFunc then "binary_repeated_rate_instant" else "binary_instant"
    else if c.family == "histogram_quantile" then "histogram_instant"
    else if c.family == "aggregation" then
      if c.endpoint == "query_range" then "aggregation_range"
      else if c.flags.rangeFunction then "range_aggregation_instant" else "aggregation_instant"
    else if c.family == "range_selector" then "range_selector_tiny"
    else c.family
  }

  predicate ServingCandidateAllowed(c: CostClass) {
    if c.selectorCount == 0 || c.flags.vectorJoin || c.flags.subquery then false
    else if c.family == "rate" || c.family == "increase" then c.endpoint == "query" && !c.flags.histogram
    else if c.family == "binary" then
      && c.endpoint == "query" && c.flags.repeatedRangeFunc && c.flags.rangeFunction && !c.flags.histogram
      && !c.flags.aggregation && !c.flags.selectionAgg && !c.flags.labelMutation
    else if c.family == "histogram_quantile" then
      c.endpoint == "query" && c.flags.histogram && c.flags.aggregation && c.flags.rangeFunction
    else if c.family == "aggregation" then
      if c.endpoint == "query" then c.flags.aggregation && !c.flags.histogram && !c.flags.selectionAgg
      else
        && c.endpoint == "query_range" && c.flags.aggregation && !c.flags.rangeFunction && !c.flags.histogram
        && !c.flags.selectionAgg && !c.flags.labelMutation && c.selectorCount == 1
    else false
  }

  /** Only for a light subquery with fresh estimates whose one cap hit is being a subquery. */
  predicate ShadowCapBypass(c: CostClass, capHits: seq<string>) {
    && c.family == "subquery" && c.flags.subquery
    && c.estimates.fresh' && c.estimates.missing <= 0 && c.estimates.stale <= 0
    && c.estimates.complexityBand == "light"
    && capHits == ["subquery"]
  }

  predicate WinsByMargin(m: CostModel, cost: Cost) {
    cost.local <= m.minRelativeLocalRatio * cost.native && cost.native - cost.local >= m.minAbsoluteWinMS
  }

  // ---- The decision ---------------------------------------------------------------------

  function ExceededNames(caps: seq<CapEvaluation>): seq<string> {
    if caps == [] then []
    else ExceededNames(caps[..|caps| - 1]) + if Exceeded(caps[|caps| - 1]) then [caps[|caps| - 1].name] else []
  }

  function BaseInfo(policy: Policy, decision: string, reason: string, c: CostClass, strict: string): RoutingInfo {
    RoutingInfo(policy, strict, strict, strict, decision, reason, MissingEstimateFields(c), [], None)
  }

  /** The decision of the cost model, as the sequence of its gates. */
  function Decision(m: CostModel, c: CostClass, strict: string, policy: Policy, enabled: seq<string>): RoutingInfo {
    var base := BaseInfo(policy, "shadow_only", "cost_shadow_strict_default", c, strict);
    var info := base.(cost := EstimateRoutingCost(c));
    var hits := ExceededNames(CapEvaluations(m, c));
    if strict == "delegated_promql" then
      info.(decision := "strict_low_confidence", reason := "delegated_promql_has_no_cost_model")
    else if info.missing != [] then info.(decision := "strict_missing_estimate", reason := "missing_estimate")
    else if hits != [] && !(policy == CostShadow && ShadowCapBypass(c, hits)) then
      info.(capHits := hits, decision := "strict_over_cap", reason := "hard_cap")
    else AfterCaps(m, c, strict, policy, enabled, info.(capHits := hits))
  }

  function AfterCaps(m: CostModel, c: CostClass, strict: string, policy: Policy, enabled: seq<string>,
      info: RoutingInfo): RoutingInfo
  {
    if !LocalCandidateFamily(c) then info.(decision := "strict_low_confidence", reason := "family_not_local_candidate")
    else if info.cost.None? || info.cost.value.native <= 0.0 || info.cost.value.local <= 0.0 then
      info.(decision := "strict_missing_estimate", reason := "missing_cost")
    else if !WinsByMargin(m, info.cost.value) then
      info.(decision := "strict_low_confidence", reason := "predicted_win_below_margin")
    else if policy != CostPrefer then
      info.(wouldSelect := "local", reason := c.family + "_local_candidate_under_caps", decision := "shadow_only")
    else if FamilyGate(c) !in enabled then info.(decision := "strict_low_confidence", reason := "family_gate_disabled")
    else if !ServingCandidateAllowed(c) then
      info.(decision := "strict_low_confidence", reason := "candidate_serving_disabled")
    else if strict == "local" then
      info.(decision := "strict_low_confidence", reason := "strict_reference_already_local")
    else
      info.(wouldSelect := "local", reason := c.family + "_local_candidate_under_caps",
            decision := "local_override", selectedStrategy := "local")
  }

  /** The loop over the caps. */
  method CapHits(caps: seq<CapEvaluation>) returns (hits: seq<string>)
    ensures hits == ExceededNames(caps)
  {
    hits := [];
    for i := 0 to |caps|
      invariant hits == ExceededNames(caps[..i])
    {
      assert caps[..i + 1][..i] == caps[..i];
      if Exceeded(caps[i]) {
        hits := hits + [caps[i].name];
      }
    }
    assert caps[..|caps|] == caps;
  }

  /** The record filled step by step. */
  method Decide(m: CostModel, c: CostClass, strict: string, policy: Policy, enabled: seq<string>)
    returns (info: RoutingInfo)
    ensures info == Decision(m, c, strict, policy, enabled)
  {
    info := BaseInfo(policy, "shadow_only", "cost_shadow_strict_default", c, strict);
    info := info.(cost := EstimateRoutingCost(c));
    if strict == "delegated_promql" {
      return info.(decision := "strict_low_confidence", reason := "delegated_promql_has_no_cost_model");
    }
    if |info.missing| > 0 {
      return info.(decision := "strict_missing_estimate", reason := "missing_estimate");
    }
    var hits := CapHits(CapEvaluations(m, c));
    info := info.(capHits := hits);
    if |info.capHits| > 0 {
      if !(policy == CostShadow && ShadowCapBypass(c, info.capHits)) {
        return info.(decision := "strict_over_cap", reason := "hard_cap");
      }
    }
    info := DecideAfterCaps(m, c, strict, policy, enabled, info);
  }

  method DecideAfterCaps(m: CostModel, c: CostClass, strict: string, policy: Policy, enabled: seq<string>,
      given: RoutingInfo)
    returns (info: RoutingInfo)
    requires given.wouldSelect == strict
    ensures info == AfterCaps(m, c, strict, policy, enabled, given)
  {
    info := given;
    if !LocalCandidateFamily(c) {
      return info.(decision := "strict_low_confidence", reason := "family_not_local_candidate");
    }
    if info.cost.None? || info.cost.value.native <= 0.0 || info.cost.value.local <= 0.0 {
      return info.(decision := "strict_missing_estimate", reason := "missing_cost");
    }
    if info.cost.value.local > m.minRelativeLocalRatio * info.cost.value.native
       || info.cost.value.native - info.cost.value.local < m.minAbsoluteWinMS {
      return info.(decision := "strict_low_confidence", reason := "predicted_win_below_margin");
    }
    info := info.(wouldSelect := "local", reason := c.family + "_local_candidate_under_caps");
    if policy == CostPrefer {
      if FamilyGate(c) !in enabled {
        return info.(wouldSelect := strict, decision := "strict_low_confidence", reason := "family_gate_disabled");
      }
      if !ServingCandidateAllowed(c) {
        return info.(wouldSelect := strict, decision := "strict_low_confidence",
            reason := "candidate_serving_disabled");
      }
      if strict == "local" {
        return info.(wouldSelect := strict, decision := "strict_low_confidence",
            reason := "strict_reference_already_local");
      }
      return info.(decision := "local_override", selectedStrategy := "local");
    }
    return info.(decision := "shadow_only");
  }

  function RoutingDecisionForStrict(policy: Policy, mode: Mode, c: CostClass, strict: string,
      enabled: seq<string>): RoutingInfo
  {
    if mode == ForceSupported || mode == Off || mode == Shadow || mode == LocalPushdown then
      BaseInfo(Strict, "strict", "native_lowering_mode_ignores_cost_routing", c, strict)
    else if policy == Strict then BaseInfo(Strict, "strict", "strict_policy", c, strict)
    else Decision(DefaultCostModel(), c, strict, policy, enabled)
  }

  // ---- When routing leaves the strict strategy ------------------------------------------

  predicate EstimatesPresent(c: CostClass) {
    c.selectorCount == 0 || c.estimatedSeries != 0
        || (c.estimates.fresh' && c.estimates.missing == 0 && c.estimates.stale == 0)
  }

  predicate UnderCaps(m: CostModel, c: CostClass) {
    && c.estimatedInputSamples <= MaxLocalInputSamplesLimit(m, c)
    && c.estimatedOutputPoints <= m.maxLocalOutputPoints
    && c.estimatedSeries <= m.maxLocalOutputSeries
    && c.localRoundTrips <= m.maxLocalRoundTrips
    && !c.flags.subquery
    && (c.flags.vectorJoin ==> c.estimatedSeries <= 1000)
    && (c.family != "range_selector" && c.rangePointsPerSeries > 0 ==> c.rangePointsPerSeries <= 240)
  }

  /** Both costs positive, and local cheaper by the ratio and by the absolute margin. */
  predicate CostWins(m: CostModel, c: CostClass) {
    && FamilyBases(c.family).0 != 0.0
    && NativeCost(c) > 0.0 && LocalCost(c) > 0.0
    && WinsByMargin(m, Cost(NativeCost(c), LocalCost(c)))
  }

  /** What has to hold besides the costs and the caps. */
  predicate Eligible(c: CostClass, strict: string, policy: Policy, enabled: seq<string>) {
    && policy == CostPrefer && strict != "local" && strict != "delegated_promql"
    && EstimatesPresent(c) && LocalCandidateFamily(c) && ServingCandidateAllowed(c) && FamilyGate(c) in enabled
  }

  lemma {:induction false} NoExceededNames(caps: seq<CapEvaluation>)
    ensures ExceededNames(caps) == [] <==> forall i | 0 <= i < |caps| :: !Exceeded(caps[i])
  {
    if caps != [] {
      NoExceededNames(caps[..|caps| - 1]);
    }
  }

  lemma NoCapExceeded(m: CostModel, c: CostClass)
    ensures ExceededNames(CapEvaluations(m, c)) == [] <==> UnderCaps(m, c)
  {
    var caps := CapEvaluations(m, c);
    NoExceededNames(caps);
    var base, n := 4, if c.flags.subquery then 5 else 4;
    assert caps[0].estimate == c.estimatedInputSamples && caps[1].estimate == c.estimatedOutputPoints;
    assert caps[2].estimate == c.estimatedSeries && caps[3].estimate == c.localRoundTrips;
    assert c.flags.subquery ==> Exceeded(caps[4]);
    assert c.flags.vectorJoin ==> caps[n].limit == 1000 && caps[n].estimate == c.estimatedSeries;
    assert c.family != "range_selector" && c.rangePointsPerSeries > 0 ==>
        caps[|caps| - 1].limit == 240 && caps[|caps| - 1].estimate == c.rangePointsPerSeries;
  }

  /** What remains to hold once the caps are passed. */
  lemma AfterCapsOverrides(m: CostModel, c: CostClass, strict: string, policy: Policy, enabled: seq<string>,
      info: RoutingInfo)
    requires info.cost == EstimateRoutingCost(c) && info.decision == "shadow_only"
    requires info.strictStrategy == info.selectedStrategy == strict
    ensures var r := AfterCaps(m, c, strict, policy, enabled, info);
            && (r.decision == "local_override" <==>
                  && policy == CostPrefer && strict != "local" && LocalCandidateFamily(c)
                  && ServingCandidateAllowed(c) && FamilyGate(c) in enabled && CostWins(m, c))
            && r.selectedStrategy == (if r.decision == "local_override" then "local" else strict)
            && r.strictStrategy == strict
  {
  }

  /** The cost model overrides exactly when everything below holds at once; otherwise the strict
      strategy is served. */
  lemma OverridesExactly(m: CostModel, c: CostClass, strict: string, policy: Policy, enabled: seq<string>)
    ensures var info := Decision(m, c, strict, policy, enabled);
            && (info.decision == "local_override"
                <==> Eligible(c, strict, policy, enabled) && UnderCaps(m, c) && CostWins(m, c))
            && info.selectedStrategy == (if info.decision == "local_override" then "local" else strict)
            && info.strictStrategy == strict
  {
    NoCapExceeded(m, c);
    var base := BaseInfo(policy, "shadow_only", "cost_shadow_strict_default", c, strict);
    var hits := ExceededNames(CapEvaluations(m, c));
    AfterCapsOverrides(m, c, strict, policy, enabled, base.(cost := EstimateRoutingCost(c), capHits := hits));
  }

  /** For every query, mode and policy: routing serves something else than the strict strategy
      exactly in a mode without execution semantics of its own, under cost_prefer, with estimates,
      no cap exceeded, a candidate family that is enabled and may be served, a strict strategy that
      is neither local nor delegated, and both win margins met. A subquery is never overridden. */
  lemma RoutingLeavesStrictExactly(policy: Policy, mode: Mode, c: CostClass, strict: string, enabled: seq<string>)
    ensures RoutingDecisionForStrict(policy, mode, c, strict, enabled).selectedStrategy != strict <==>
              && (mode == Prefer || mode == Explain)
              && Eligible(c, strict, policy, enabled) && UnderCaps(DefaultCostModel(), c)
                  && CostWins(DefaultCostModel(), c)
    ensures c.flags.subquery ==> RoutingDecisionForStrict(policy, mode, c, strict, enabled).selectedStrategy == strict
  {
    OverridesExactly(DefaultCostModel(), c, strict, policy, enabled);
  }

  /** More input samples only make local relatively cheaper, as long as the required ratio is at
      least the ratio of the two per-sample costs. */
  lemma CostWinGrows(m: CostModel, c: CostClass, more: int)
    requires m.minRelativeLocalRatio >= 0.2 && more >= c.estimatedInputSamples
    ensures CostWins(m, c) ==> CostWins(m, c.(estimatedInputSamples := more))
  {
    if CostWins(m, c) {
      var c' := c.(estimatedInputSamples := more);
      var d := (more - c.estimatedInputSamples) as real;
      assert NativeCost(c') == NativeCost(c) + d / 10_000.0;
      assert LocalCost(c') == LocalCost(c) + d / 50_000.0;
      MarginGrows(m.minRelativeLocalRatio, NativeCost(c), LocalCost(c), d / 10_000.0, d / 50_000.0);
    }
  }

  lemma MarginGrows(ratio: real, native: real, local: real, nativeGain: real, localGain: real)
    requires ratio >= 0.2 && localGain >= 0.0 && nativeGain == 5.0 * localGain && local <= ratio * native
    ensures local + localGain <= ratio * (native + nativeGain)
  {
    assert ratio * (native + nativeGain) == ratio * native + ratio * nativeGain;
    assert (ratio - 0.2) * nativeGain >= 0.0;
  }

  /** With the rest fixed, an override at some number of input samples is an override at every
      larger number up to the cap, and at none above it. */
  lemma OverrideIsUpwardClosedToTheCap(policy: Policy, mode: Mode, c: CostClass, strict: string, enabled: seq<string>,
      more: int)
    requires more >= c.estimatedInputSamples
    ensures RoutingDecisionForStrict(policy, mode, c, strict, enabled).selectedStrategy != strict ==>
              var c' := c.(estimatedInputSamples := more);
              (RoutingDecisionForStrict(policy, mode, c', strict, enabled).selectedStrategy != strict
               <==> more <= MaxLocalInputSamplesLimit(DefaultCostModel(), c))
  {
    var c' := c.(estimatedInputSamples := more);
    RoutingLeavesStrictExactly(policy, mode, c, strict, enabled);
    RoutingLeavesStrictExactly(policy, mode, c', strict, enabled);
    CostWinGrows(DefaultCostModel(), c, more);
  }

  /** Under cost_shadow the strict strategy is always served, and local is reported as the one that
      would be selected exactly for a candidate with estimates whose costs win and that is under
      the caps, or over none but the subquery cap with leave to pass it. */
  lemma ShadowOnlyReports(m: CostModel, c: CostClass, strict: string, enabled: seq<string>)
    ensures var info := Decision(m, c, strict, CostShadow, enabled);
            && info.selectedStrategy == strict
            && (info.wouldSelect != strict <==>
                  && strict != "local" && strict != "delegated_promql" && EstimatesPresent(c)
                  && (UnderCaps(m, c) || ShadowCapBypass(c, ExceededNames(CapEvaluations(m, c))))
                  && LocalCandidateFamily(c) && CostWins(m, c))
  {
    NoCapExceeded(m, c);
  }

  /** Which gate keeps a query strict: a missing estimate before a cap, a cap before any doubt. */
  lemma StrictReasonsExactly(m: CostModel, c: CostClass, strict: string, policy: Policy, enabled: seq<string>)
    ensures var info := Decision(m, c, strict, policy, enabled);
            && (info.reason == "missing_estimate" <==> strict != "delegated_promql" && !EstimatesPresent(c))
            && (info.decision == "strict_over_cap" <==>
                  && strict != "delegated_promql" && EstimatesPresent(c) && !UnderCaps(m, c)
                  && !(policy == CostShadow && ShadowCapBypass(c, ExceededNames(CapEvaluations(m, c)))))
            && (info.decision == "strict_over_cap" ==> info.capHits == ExceededNames(CapEvaluations(m, c)) != [])
  {
    NoCapExceeded(m, c);
  }

  /** Where the cost model is not asked, the record says why: the mode first, then the policy. */
  lemma UnroutedReasons(policy: Policy, mode: Mode, c: CostClass, strict: string, enabled: seq<string>)
    ensures var info := RoutingDecisionForStrict(policy, mode, c, strict, enabled);
            mode !in {Prefer, Explain} || policy == Strict ==>
              && info.selectedStrategy == info.wouldSelect == info.strictStrategy == strict
              && info.policy == Strict && info.decision == "strict"
              && info.capHits == [] && info.cost.None?
              && info.reason == if mode in {Prefer, Explain} then "strict_policy"
                                else "native_lowering_mode_ignores_cost_routing"
  {
    assert mode !in {Prefer, Explain} <==> mode == ForceSupported || mode == Off || mode == Shadow
                                           || mode == LocalPushdown;
  }

  // ---- The built-in cost model, family by family ----------------------------------------

  /** No limit of the built-in cost model is exceeded, given its limit on input samples. */
  predicate WithinLimits(c: CostClass, inputSamples: int) {
    && c.estimatedInputSamples <= inputSamples && c.estimatedOutputPoints <= 10_000 && c.estimatedSeries <= 5_000
    && c.localRoundTrips <= 2 && c.rangePointsPerSeries <= 240
    && (c.flags.vectorJoin ==> c.estimatedSeries <= 1_000)
  }

  /** Native costs at least 3 ms more than local, and local at most 70 percent of native; the base costs are
      those of the family. */
  predicate LocalWins(c: CostClass, nativeBase: real, localBase: real) {
    var input, output := c.estimatedInputSamples as real, c.estimatedOutputPoints as real;
    var native := nativeBase + input / 10_000.0 + output / 20_000.0 + 2.0 * c.nativeRoundTrips as real;
    var local := localBase + input / 50_000.0 + output / 50_000.0 + 2.0 * c.localRoundTrips as real;
    0.0 < local <= 0.7 * native && local + 3.0 <= native
  }

  /** A rate or an increase over one selector. */
  predicate RateServedLocally(c: CostClass, enabled: seq<string>) {
    && (c.family == "rate" || c.family == "increase") && c.endpoint == "query" && "rate_instant" in enabled
    && c.selectorCount == 1 && !c.flags.histogram
    && WithinLimits(c, 50_000) && LocalWins(c, 30.0, 20.0)
  }

  /** The same range function on both sides of an operator, and nothing else. */
  predicate BinaryServedLocally(c: CostClass, enabled: seq<string>) {
    && c.family == "binary" && c.endpoint == "query" && "binary_repeated_rate_instant" in enabled
    && c.selectorCount == 2 && c.flags.repeatedRangeFunc && c.flags.rangeFunction
    && !c.flags.histogram && !c.flags.aggregation && !c.flags.selectionAgg && !c.flags.labelMutation
    && WithinLimits(c, 50_000) && LocalWins(c, 45.0, 25.0)
  }

  /** A quantile of an aggregated rate. */
  predicate HistogramServedLocally(c: CostClass, enabled: seq<string>) {
    && c.family == "histogram_quantile" && c.endpoint == "query" && "histogram_instant" in enabled
    && c.selectorCount != 0 && c.flags.histogram && c.flags.aggregation && c.flags.rangeFunction
    && WithinLimits(c, 50_000) && LocalWins(c, 150.0, 35.0)
  }

  /** An aggregation at one time. */
  predicate AggregationServedLocally(c: CostClass, enabled: seq<string>) {
    && c.family == "aggregation" && c.endpoint == "query"
    && (if c.flags.rangeFunction then "range_aggregation_instant" else "aggregation_instant") in enabled
    && c.selectorCount != 0 && c.flags.aggregation && !c.flags.histogram && !c.flags.selectionAgg
    && WithinLimits(c, 50_000) && LocalWins(c, 40.0, 25.0)
  }

  /** A plain aggregation of one selector over a range, which may read more input samples. */
  predicate RangeAggregationServedLocally(c: CostClass, enabled: seq<string>) {
    && c.family == "aggregation" && c.endpoint == "query_range" && "aggregation_range" in enabled
    && c.selectorCount == 1 && c.flags.aggregation
    && !c.flags.rangeFunction && !c.flags.histogram && !c.flags.selectionAgg && !c.flags.labelMutation
    && WithinLimits(c, 1_500_000) && LocalWins(c, 40.0, 25.0)
  }

  lemma LocalWinsIsTheCostModel(c: CostClass, nativeBase: real, localBase: real)
    requires FamilyBases(c.family) == (nativeBase, localBase) && nativeBase != 0.0
    ensures CostWins(DefaultCostModel(), c) <==> LocalWins(c, nativeBase, localBase)
  {
  }

  /** Everything that the cost model asks of a query itself. */
  predicate Served(c: CostClass, enabled: seq<string>) {
    && LocalCandidateFamily(c) && ServingCandidateAllowed(c) && FamilyGate(c) in enabled
    && UnderCaps(DefaultCostModel(), c) && CostWins(DefaultCostModel(), c)
  }

  predicate SingleVector(c: CostClass) {
    !c.flags.subquery && !c.flags.vectorJoin
  }

  lemma RateFamily(c: CostClass, enabled: seq<string>)
    requires c.family == "rate" || c.family == "increase"
    ensures Served(c, enabled) <==> SingleVector(c) && RateServedLocally(c, enabled)
  {
    LocalWinsIsTheCostModel(c, 30.0, 20.0);
  }

  lemma BinaryFamily(c: CostClass, enabled: seq<string>)
    requires c.family == "binary"
    ensures Served(c, enabled) <==> SingleVector(c) && BinaryServedLocally(c, enabled)
  {
    LocalWinsIsTheCostModel(c, 45.0, 25.0);
  }

  lemma HistogramFamily(c: CostClass, enabled: seq<string>)
    requires c.family == "histogram_quantile"
    ensures Served(c, enabled) <==> SingleVector(c) && HistogramServedLocally(c, enabled)
  {
    LocalWinsIsTheCostModel(c, 150.0, 35.0);
  }

  lemma AggregationFamily(c: CostClass, enabled: seq<string>)
    requires c.family == "aggregation"
    ensures Served(c, enabled) <==>
              SingleVector(c) && (AggregationServedLocally(c, enabled) || RangeAggregationServedLocally(c, enabled))
  {
    LocalWinsIsTheCostModel(c, 40.0, 25.0);
  }

  lemma OtherFamilies(c: CostClass, enabled: seq<string>)
    requires c.family != "rate" && c.family != "increase" && c.family != "binary"
    requires c.family != "histogram_quantile" && c.family != "aggregation"
    ensures !Served(c, enabled)
  {
  }

  /** One of the five kinds of query that may be served locally. */
  predicate ServedByKind(c: CostClass, enabled: seq<string>) {
    || RateServedLocally(c, enabled) || BinaryServedLocally(c, enabled) || HistogramServedLocally(c, enabled)
    || AggregationServedLocally(c, enabled) || RangeAggregationServedLocally(c, enabled)
  }

  lemma ServedIsByKind(c: CostClass, enabled: seq<string>)
    ensures Served(c, enabled) <==> SingleVector(c) && ServedByKind(c, enabled)
  {
    if c.family == "rate" || c.family == "increase" {
      RateFamily(c, enabled);
    } else if c.family == "binary" {
      BinaryFamily(c, enabled);
    } else if c.family == "histogram_quantile" {
      HistogramFamily(c, enabled);
    } else if c.family == "aggregation" {
      AggregationFamily(c, enabled);
    } else {
      OtherFamilies(c, enabled);
    }
  }

  /** For every query, mode and policy: routing serves local instead of the strict strategy exactly if mode,
      policy and strict strategy allow it, the selectors have estimates, there is neither a subquery nor a vector
      join, and the query is one of five kinds, with its gate enabled, within its limits and won by the costs. */
  lemma LeavesStrictByFamily(policy: Policy, mode: Mode, c: CostClass, strict: string, enabled: seq<string>)
    ensures RoutingDecisionForStrict(policy, mode, c, strict, enabled).selectedStrategy
            == if && (mode == Prefer || mode == Explain) && policy == CostPrefer
                  && strict != "local" && strict != "delegated_promql"
                  && (|| c.selectorCount == 0 || c.estimatedSeries != 0
                      || (c.estimates.fresh' && c.estimates.missing == c.estimates.stale == 0))
                  && !c.flags.subquery && !c.flags.vectorJoin && ServedByKind(c, enabled)
               then "local" else strict
  {
    RoutingLeavesStrictExactly(policy, mode, c, strict, enabled);
    OnlyLocalReplacesStrict(policy, mode, c, strict, enabled);
    ServedIsByKind(c, enabled);
    assert Eligible(c, strict, policy, enabled) && UnderCaps(DefaultCostModel(), c) && CostWins(DefaultCostModel(), c)
      <==> policy == CostPrefer && strict != "local" && strict != "delegated_promql" && EstimatesPresent(c)
           && Served(c, enabled);
  }

  lemma OnlyLocalReplacesStrict(policy: Policy, mode: Mode, c: CostClass, strict: string, enabled: seq<string>)
    ensures var selected := RoutingDecisionForStrict(policy, mode, c, strict, enabled).selectedStrategy;
            selected == strict || selected == "local"
  {
    OverridesExactly(DefaultCostModel(), c, strict, policy, enabled);
  }

  /** The name of a cap that is exceeded, on its own. */
  function HitIf(exceeded: bool, name: string): seq<string> {
    if exceeded then [name] else []
  }

  lemma {:induction false} ExceededNamesAppend(first: seq<CapEvaluation>, second: seq<CapEvaluation>)
    ensures ExceededNames(first + second) == ExceededNames(first) + ExceededNames(second)
  {
    if second == [] {
      assert first + second == first;
    } else {
      assert (first + second)[..|first + second| - 1] == first + second[..|second| - 1];
      ExceededNamesAppend(first, second[..|second| - 1]);
    }
  }

  lemma OneCap(cap: CapEvaluation)
    ensures ExceededNames([cap]) == HitIf(cap.estimate > cap.limit, cap.name)
  {
    assert [cap][..0] == [];
  }

  lemma FourCaps(a: CapEvaluation, b: CapEvaluation, c: CapEvaluation, d: CapEvaluation)
    ensures ExceededNames([a, b, c, d])
            == HitIf(a.estimate > a.limit, a.name) + HitIf(b.estimate > b.limit, b.name)
               + HitIf(c.estimate > c.limit, c.name) + HitIf(d.estimate > d.limit, d.name)
  {
    OneCap(a);
    OneCap(b);
    OneCap(c);
    OneCap(d);
    ExceededNamesAppend([a], [b]);
    ExceededNamesAppend([a, b], [c]);
    ExceededNamesAppend([a, b, c], [d]);
    assert [a] + [b] == [a, b] && [a, b] + [c] == [a, b, c] && [a, b, c] + [d] == [a, b, c, d];
  }

  lemma OptionalCap(present: bool, cap: CapEvaluation)
    ensures ExceededNames(if present then [cap] else []) == HitIf(present && cap.estimate > cap.limit, cap.name)
  {
    OneCap(cap);
  }

  lemma FourGroups(a: seq<CapEvaluation>, b: seq<CapEvaluation>, c: seq<CapEvaluation>, d: seq<CapEvaluation>)
    ensures ExceededNames(a + b + c + d) == ExceededNames(a) + ExceededNames(b) + ExceededNames(c) + ExceededNames(d)
  {
    ExceededNamesAppend(a + b + c, d);
    ExceededNamesAppend(a + b, c);
    ExceededNamesAppend(a, b);
  }

  /** Under the built-in cost model, the caps that are hit, by name and in order. */
  lemma CapsHitByName(c: CostClass)
    ensures var plain := c.flags.aggregation && !c.flags.rangeFunction && !c.flags.histogram && !c.flags.selectionAgg
                         && !c.flags.vectorJoin && !c.flags.subquery && c.selectorCount == 1;
            var sums := c.endpoint == "query_range" && c.family == "aggregation" && plain;
            var input := if sums then 1_500_000 else 50_000;
            ExceededNames(CapEvaluations(DefaultCostModel(), c))
            == HitIf(c.estimatedInputSamples > input, "maxLocalInputSamples")
               + HitIf(c.estimatedOutputPoints > 10_000, "maxLocalOutputPoints")
               + HitIf(c.estimatedSeries > 5_000, "maxLocalOutputSeries")
               + HitIf(c.localRoundTrips > 2, "maxLocalRoundTrips")
               + HitIf(c.flags.subquery, "subquery")
               + HitIf(c.flags.vectorJoin && c.estimatedSeries > 1_000, "highCardinalityVectorJoin")
               + HitIf(c.family != "range_selector" && c.rangePointsPerSeries > 240, "rangePointsPerSeries")
  {
    var m := DefaultCostModel();
    var a := CapEvaluation("maxLocalInputSamples", c.estimatedInputSamples, MaxLocalInputSamplesLimit(m, c));
    var b := CapEvaluation("maxLocalOutputPoints", c.estimatedOutputPoints, m.maxLocalOutputPoints);
    var s := CapEvaluation("maxLocalOutputSeries", c.estimatedSeries, m.maxLocalOutputSeries);
    var t := CapEvaluation("maxLocalRoundTrips", c.localRoundTrips, m.maxLocalRoundTrips);
    var sub := CapEvaluation("subquery", 1, 0);
    var join := CapEvaluation("highCardinalityVectorJoin", c.estimatedSeries, 1000);
    var points := CapEvaluation("rangePointsPerSeries", c.rangePointsPerSeries, 240);
    var counted := c.family != "range_selector" && c.rangePointsPerSeries > 0;
    FourGroups([a, b, s, t], if c.flags.subquery then [sub] else [], if c.flags.vectorJoin then [join] else [],
               if counted then [points] else []);
    FourCaps(a, b, s, t);
    OptionalCap(c.flags.subquery, sub);
    OptionalCap(c.flags.vectorJoin, join);
    OptionalCap(counted, points);
  }

  /** What cost_shadow may report as local: besides the kinds that cost_prefer may serve, instant selectors,
      short range selectors and a light subquery with fresh estimates. */
  predicate ReportedLocally(c: CostClass) {
    if c.family == "selector" then
      c.endpoint == "query" && !c.flags.subquery && LocalWins(c, 24.0, 7.0) && WithinLimits(c, 50_000)
    else if c.family == "range_selector" then
      && 0 < c.rangePointsPerSeries <= 60 && !c.flags.subquery && LocalWins(c, 24.0, 7.0) && WithinLimits(c, 50_000)
    else if c.family == "rate" || c.family == "increase" then
      && c.endpoint == "query" && c.selectorCount == 1 && !c.flags.subquery && LocalWins(c, 30.0, 20.0)
      && WithinLimits(c, 50_000)
    else if c.family == "binary" then
      && c.endpoint == "query" && c.selectorCount == 2 && c.flags.repeatedRangeFunc && !c.flags.vectorJoin
      && !c.flags.subquery && LocalWins(c, 45.0, 25.0) && WithinLimits(c, 50_000)
    else if c.family == "histogram_quantile" then
      && c.endpoint == "query" && !c.flags.vectorJoin && !c.flags.subquery && LocalWins(c, 150.0, 35.0)
      && WithinLimits(c, 50_000)
    else if c.family == "aggregation" then
      && !c.flags.histogram && !c.flags.selectionAgg && !c.flags.vectorJoin && !c.flags.subquery
      && LocalWins(c, 40.0, 25.0)
      && if c.endpoint == "query" then WithinLimits(c, 50_000)
         else
           && c.endpoint == "query_range" && c.flags.aggregation && !c.flags.rangeFunction && c.selectorCount == 1
           && WithinLimits(c, 1_500_000)
    else
      && c.family == "subquery" && c.endpoint == "query" && c.selectorCount == 1 && c.flags.subquery
      && !c.flags.vectorJoin && LocalWins(c, 55.0, 24.0) && WithinLimits(c, 50_000)
      && c.estimates.fresh' && c.estimates.missing <= 0 && c.estimates.stale <= 0
      && c.estimates.complexityBand == "light"
  }

  lemma OnlyTheSubqueryCap(c: CostClass)
    requires c.family == "subquery" && c.flags.subquery && !c.flags.vectorJoin
    ensures ExceededNames(CapEvaluations(DefaultCostModel(), c)) == ["subquery"] <==> WithinLimits(c, 50_000)
  {
    CapsHitByName(c);
  }

  /** Under cost_shadow, local is reported as the strategy that would be selected exactly for these queries. */
  lemma ShadowReportsByFamily(c: CostClass, strict: string, enabled: seq<string>)
    ensures Decision(DefaultCostModel(), c, strict, CostShadow, enabled).wouldSelect
            == if && strict != "delegated_promql"
                  && (|| c.selectorCount == 0 || c.estimatedSeries != 0
                      || (c.estimates.fresh' && c.estimates.missing == c.estimates.stale == 0))
                  && ReportedLocally(c)
               then "local" else strict
  {
    var m := DefaultCostModel();
    ShadowOnlyReports(m, c, strict, enabled);
    if LocalCandidateFamily(c) {
      LocalWinsIsTheCostModel(c, FamilyBases(c.family).0, FamilyBases(c.family).1);
    }
    if c.family == "subquery" && c.flags.subquery && !c.flags.vectorJoin {
      OnlyTheSubqueryCap(c);
    }
  }
}
