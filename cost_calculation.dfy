/** The freight cost calculator (CostCalculationService.CalculateCost) and the endpoint
    that exposes it (ShipmentsController.CalculateCost). */
module CostCalculation {
  import opened Wrappers
  import opened Rounding
  import opened Models
  import opened FreightContext

  datatype CostRequest = CostRequest(weight: Money, transportMode: string, distance: Money)

  datatype CostResponse = CostResponse(
    estimatedCost: Money, transportMode: string, baseRate: Money, weightCharge: Money,
    distanceCharge: Money, minimumCharge: Money)

  predicate Applies(rule: PricingRule, mode: string) {
    rule.transportMode == mode && rule.isActive
  }

  /** `FirstOrDefault(p => p.TransportMode == mode && p.IsActive)` over the rule table
      in its stored order: the position of the first active rule for `mode`. */
  function FindActiveRule(rules: seq<PricingRule>, mode: string): (r: Option<nat>)
    ensures r.Some? ==> r.value < |rules| && Applies(rules[r.value], mode)
    ensures r.Some? ==> forall j :: 0 <= j < r.value ==> !Applies(rules[j], mode)
    ensures r.None? <==> forall j :: 0 <= j < |rules| ==> !Applies(rules[j], mode)
  {
    if rules == [] then None
    else if Applies(rules[0], mode) then Some(0)
    else match FindActiveRule(rules[1..], mode)
      case None => None
      case Some(k) => Some(k + 1)
  }

  /** The undiscounted charge: weight times the base rate plus distance times the
      distance multiplier, before the minimum charge and before rounding. */
  function RawCost(request: CostRequest, rule: PricingRule): Money {
    request.weight * rule.baseRate + request.distance * rule.distanceMultiplier
  }

  function Max(a: real, b: real): real {
    if a >= b then a else b
  }

  const NoRuleMessage := "No active pricing rule found for transport mode: "

  /** The rule a calculation uses: the first active rule for the request's mode. */
  function RuleUsed(rules: seq<PricingRule>, request: CostRequest): (rule: PricingRule)
    requires FindActiveRule(rules, request.transportMode).Some?
    ensures rule in rules && Applies(rule, request.transportMode)
  {
    rules[FindActiveRule(rules, request.transportMode).value]
  }

  /** `response` is the breakdown of `request` under `rule`: the estimate is the raw
      cost floored at the minimum charge and then rounded, the two charges are rounded
      separately, and the rule's base rate and minimum charge are reported as stored. */
  predicate Priced(request: CostRequest, rule: PricingRule, response: CostResponse) {
    response.transportMode == request.transportMode
    && response.baseRate == rule.baseRate && response.minimumCharge == rule.minimumCharge
    && response.weightCharge == Round2(request.weight * rule.baseRate)
    && response.distanceCharge == Round2(request.distance * rule.distanceMultiplier)
    && response.estimatedCost == Round2(Max(RawCost(request, rule), rule.minimumCharge))
  }

  /** The cost breakdown for a request under the first active rule for its transport
      mode, or the 400 answer when there is none. */
  function CalculateCost(rules: seq<PricingRule>, request: CostRequest): (r: Reply<CostResponse>)
    ensures r.Ok? || r.BadRequest?
    ensures r.BadRequest? <==> forall j :: 0 <= j < |rules| ==> !Applies(rules[j], request.transportMode)
    ensures r.BadRequest? ==> r.message == NoRuleMessage + request.transportMode
    ensures r.Ok? ==> FindActiveRule(rules, request.transportMode).Some?
                      && Priced(request, RuleUsed(rules, request), r.value)
    ensures r.Ok? ==> IsCents(r.value.estimatedCost) && IsCents(r.value.weightCharge)
                      && IsCents(r.value.distanceCharge)
    ensures r.Ok? ==> -0.005 <= r.value.estimatedCost
                        - Max(RawCost(request, RuleUsed(rules, request)), RuleUsed(rules, request).minimumCharge) <= 0.005
  {
    match FindActiveRule(rules, request.transportMode)
    case None => BadRequest(NoRuleMessage + request.transportMode)
    case Some(_) =>
      var rule := RuleUsed(rules, request);
      var response := CostResponse(
        Round2(Max(RawCost(request, rule), rule.minimumCharge)), request.transportMode,
        rule.baseRate, Round2(request.weight * rule.baseRate),
        Round2(request.distance * rule.distanceMultiplier), rule.minimumCharge);
      assert Priced(request, rule, response);
      Ok(response)
  }

  /** The estimate never falls below the minimum charge, as long as the minimum charge
      is a whole number of cents (its column is decimal(18,2)). */
  lemma EstimateAtLeastMinimum(rules: seq<PricingRule>, request: CostRequest)
    requires CalculateCost(rules, request).Ok?
    requires IsCents(RuleUsed(rules, request).minimumCharge)
    ensures CalculateCost(rules, request).value.estimatedCost >= RuleUsed(rules, request).minimumCharge
  {
    var rule := RuleUsed(rules, request);
    Round2AtLeast(Max(RawCost(request, rule), rule.minimumCharge), rule.minimumCharge);
  }

  /** Below the minimum the estimate is exactly the minimum charge; otherwise it is the
      raw cost rounded. The comparison uses the unrounded raw cost. */
  lemma EstimateFloor(rules: seq<PricingRule>, request: CostRequest)
    requires CalculateCost(rules, request).Ok?
    requires IsCents(RuleUsed(rules, request).minimumCharge)
    ensures RawCost(request, RuleUsed(rules, request)) < RuleUsed(rules, request).minimumCharge
            ==> CalculateCost(rules, request).value.estimatedCost == RuleUsed(rules, request).minimumCharge
    ensures RawCost(request, RuleUsed(rules, request)) >= RuleUsed(rules, request).minimumCharge
            ==> CalculateCost(rules, request).value.estimatedCost == Round2(RawCost(request, RuleUsed(rules, request)))
  {
    var rule := RuleUsed(rules, request);
    var raw := RawCost(request, rule);
    var est := CalculateCost(rules, request).value.estimatedCost;
    assert est == Round2(Max(raw, rule.minimumCharge));
    if raw < rule.minimumCharge {
      assert Max(raw, rule.minimumCharge) == rule.minimumCharge;
      Round2OfCents(rule.minimumCharge);
    }
  }

  /** A raw cost of 299.995 against a minimum of 300.00 is floored to the minimum, even
      though it would round to 300.00 by itself; 300.004 is above the minimum and rounds
      down to it. */
  lemma FloorComparesUnrounded()
    ensures CalculateCost([PricingRule(9, "Road", 1.0, 0.0, 300.00, true)],
                          CostRequest(299.995, "Road", 0.0)).value.estimatedCost == 300.00
    ensures CalculateCost([PricingRule(9, "Road", 1.0, 0.0, 300.00, true)],
                          CostRequest(300.004, "Road", 0.0)).value.estimatedCost == 300.00
  {
    Round2OfCents(300.00);
    RoundHalfEvenUnique(30000.4, 30000);
  }

  /** Air, 150.5 kg over 4500 km with the seeded rules: 2257.50 + 225.00 = 2482.50, above
      the 500.00 minimum. */
  lemma AirExample()
    ensures CalculateCost(SeedPricingRules, CostRequest(150.5, "Air", 4500.0))
         == Ok(CostResponse(2482.50, "Air", 15.00, 2257.50, 225.00, 500.00))
  {
    Round2OfCents(2482.50);
    Round2OfCents(2257.50);
    Round2OfCents(225.00);
  }

  /** Sea, 10 kg over 50 km with the seeded rules: 80.00 + 1.00 = 81.00, below the 300.00
      minimum, so the estimate is the minimum. */
  lemma SeaExample()
    ensures CalculateCost(SeedPricingRules, CostRequest(10.0, "Sea", 50.0))
         == Ok(CostResponse(300.00, "Sea", 8.00, 80.00, 1.00, 300.00))
  {
    Round2OfCents(300.00);
    Round2OfCents(80.00);
    Round2OfCents(1.00);
  }

  /** A mode without an active rule (here a lower-case spelling: the match is exact) is
      answered with 400 and the message. */
  lemma UnknownModeExample()
    ensures CalculateCost(SeedPricingRules, CostRequest(10.0, "air", 50.0))
         == BadRequest("No active pricing rule found for transport mode: air")
  {
  }
}
