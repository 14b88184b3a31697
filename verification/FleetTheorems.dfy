/** What the allocation promises about the vehicles it lists and the one it selects, on their recorded fields. */
module FleetTheorems {
  import opened Options
  import opened Decimals
  import opened Orders
  import opened RoadNetwork
  import opened PathFinder
  import opened PathTheorems
  import opened Fleet

  // ----- roads

  /** Known endpoints, joined by open edges that all carry the weight. */
  ghost predicate Carries(s: Snapshot, u: NodeId, v: NodeId, weight: real) {
    u in NodeIds(s) && v in NodeIds(s) && exists nodes, ids :: Drivable(s, Trip(u, v, Fastest, weight, {}), nodes, ids)
  }

  lemma EstimateOnFields(s: Snapshot, u: NodeId, v: NodeId, weight: real)
    requires Routable(s)
    ensures Estimate(s, u, v, weight).Some? <==> Carries(s, u, v, weight)
    ensures Estimate(s, u, v, weight).Some? ==>
              var p := Estimate(s, u, v, weight).value;
              Drivable(s, Trip(u, v, Fastest, weight, {}), p.nodeIds, p.edgeIds)
  {
    RoutableSearchable(s, u, v, weight);
    FoundPathOnFields(s, Fast(u, v, weight));
  }

  // ----- one vehicle

  /** The rules on paper, on the fields of vehicle, driver and request. */
  predicate MeetsRules(v: Vehicle, r: Request) {
    && v.vehicleId != r.originalVehicle && v.status == "AVAILABLE"
    && v.driver.Some? && v.driver.value.status == "ON_DUTY"
    && (v.driver.value.licenseClass == "B2" || (v.driver.value.licenseClass == "C1"
          && v.vehicleType in {"VAN", "REFRIGERATED_VAN", "ELECTRIC_VAN", "TRICYCLE"}))
    && r.cargoWeight.Value() <= Quantize(v.maxLoad.Value() - v.currentLoad.Value(), 2).Value()
    && (r.cargoType == "COLD_CHAIN" ==> v.capability == "COLD_CHAIN")
  }

  lemma FitOnFields(v: Vehicle, r: Request)
    ensures Fit(v, r) <==> MeetsRules(v, r)
  {
  }

  /** Eligible exactly when the rules hold and both legs lead over open edges that carry the vehicle. */
  lemma EligibleOnFields(s: Snapshot, v: Vehicle, r: Request)
    requires Routable(s)
    ensures Evaluate(s, v, r).eligible <==>
              && MeetsRules(v, r) && Carries(s, v.node, r.incidentNode, v.grossWeight.Value())
              && (r.destination.Some? ==> Carries(s, r.incidentNode, r.destination.value, v.grossWeight.Value()))
  {
    var w := v.grossWeight.Value();
    EligibleExactly(s, v, r);
    FitOnFields(v, r);
    EstimateIffCanDrive(s, v.node, r.incidentNode, w);
    EstimateOnFields(s, v.node, r.incidentNode, w);
    if r.destination.Some? {
      EstimateIffCanDrive(s, r.incidentNode, r.destination.value, w);
      EstimateOnFields(s, r.incidentNode, r.destination.value, w);
    }
  }

  /** The cargo of an eligible vehicle stays within its maximum, up to the rounding of the remaining load. */
  lemma LoadFits(v: Vehicle, r: Request)
    requires MeetsRules(v, r)
    ensures v.currentLoad.Value() + r.cargoWeight.Value() <= v.maxLoad.Value() + 0.005
  {
    QuantizeCents(v.maxLoad.Value() - v.currentLoad.Value());
  }

  function RiskPenaltyOf(riskCost: int): real {
    if riskCost >= 12 then 15.0 else if riskCost > 0 then 6.0 else 0.0
  }

  function LoadShare(v: Vehicle): real {
    if v.maxLoad.Value() == 0.0 then 0.0 else v.currentLoad.Value() / v.maxLoad.Value()
  }

  /** The score of a vehicle that takes the pickup path `p`. */
  function ScoreFor(v: Vehicle, r: Request, p: PathResult): real {
    100.0 - p.minutes as real * 1.5 - p.distance.Value() * 2.0 - LoadShare(v) * 20.0 - RiskPenaltyOf(p.riskCost)
    + (if v.node == r.incidentNode then 8.0 else 0.0) + (if v.capability == r.cargoType then 10.0 else 0.0)
  }

  lemma ScoreByFields(v: Vehicle, r: Request, p: PathResult)
    ensures Score(Components(v, r, p)) == Quantize(ScoreFor(v, r, p), 1)
  {
    RiskByCost(p.riskCost);
  }

  lemma RiskByCost(riskCost: int)
    ensures ROAD_RISK_PENALTIES[RiskLevel(riskCost)] == RiskPenaltyOf(riskCost)
  {
  }

  /** What the record of a vehicle holds. */
  ghost predicate RecordOf(c: Candidate, v: Vehicle, r: Request) {
    && c.vehicleId == v.vehicleId && c.vehicleStatus == v.status && c.capability == v.capability
    && c.grossWeight == v.grossWeight && c.remainingLoad == Quantize(v.maxLoad.Value() - v.currentLoad.Value(), 2)
    && c.driverId == (if v.driver.Some? then Some(v.driver.value.driverId) else None)
    && c.driverStatus == (if v.driver.Some? then Some(v.driver.value.status) else None)
    && c.eta == (if c.pickup.Some? then Some(c.pickup.value.minutes) else None)
    && c.score == (if c.pickup.Some? then Some(Quantize(ScoreFor(v, r, c.pickup.value), 1)) else None)
  }

  lemma CandidateOnFields(v: Vehicle, r: Request, pickup: Option<PathResult>, reasons: seq<string>)
    ensures RecordOf(CandidateOf(v, r, pickup, reasons), v, r) && CandidateOf(v, r, pickup, reasons).pickup == pickup
  {
    if pickup.Some? { ScoreByFields(v, r, pickup.value); }
  }

  /** The record is that of the vehicle, with the fastest path that carries it to the incident. */
  lemma EvaluateOnFields(s: Snapshot, v: Vehicle, r: Request)
    requires Routable(s)
    ensures var c := Evaluate(s, v, r);
      && RecordOf(c, v, r)
      && (c.pickup.Some? <==> Carries(s, v.node, r.incidentNode, v.grossWeight.Value()))
      && (c.pickup.Some? ==> Drivable(s, Trip(v.node, r.incidentNode, Fastest, v.grossWeight.Value(), {}),
                                      c.pickup.value.nodeIds, c.pickup.value.edgeIds))
    ensures var c, w := Evaluate(s, v, r), v.grossWeight.Value();
      c.reasons == CheapReasons(v, r) + Refusals(s, v.node, r.incidentNode, w, "PICKUP_UNREACHABLE")
        + if c.pickup.None? || r.destination.None? then []
          else Refusals(s, r.incidentNode, r.destination.value, w, "DELIVERY_UNREACHABLE")
  {
    var w := v.grossWeight.Value();
    EstimateOnFields(s, v.node, r.incidentNode, w);
    LegReasonsOnFields(s, v.node, r.incidentNode, w, "PICKUP_UNREACHABLE");
    if r.destination.Some? { LegReasonsOnFields(s, r.incidentNode, r.destination.value, w, "DELIVERY_UNREACHABLE"); }
    CandidateOnFields(v, r, Estimate(s, v.node, r.incidentNode, v.grossWeight.Value()), Evaluate(s, v, r).reasons);
  }

  // ----- the reasons

  /** A missing driver counts as unavailable and is not asked for a licence. */
  predicate Licensed(v: Vehicle) {
    v.driver.None? || v.driver.value.licenseClass == "B2" || (v.driver.value.licenseClass == "C1"
      && v.vehicleType in {"VAN", "REFRIGERATED_VAN", "ELECTRIC_VAN", "TRICYCLE"})
  }

  /** The reason, if the rule is broken. */
  function Unless(holds: bool, reason: string): seq<string> {
    if holds then [] else [reason]
  }

  lemma DriverReasonsOnFields(v: Vehicle)
    ensures DriverReasons(v) == Unless(v.driver.Some? && v.driver.value.status == "ON_DUTY", "DRIVER_UNAVAILABLE")
                                + Unless(Licensed(v), "LICENSE_MISMATCH")
  {
  }

  /** One reason per broken rule, in the order of the rules. */
  lemma CheapReasonsOnFields(v: Vehicle, r: Request)
    ensures var room := Quantize(v.maxLoad.Value() - v.currentLoad.Value(), 2).Value();
      CheapReasons(v, r) ==
        Unless(v.vehicleId != r.originalVehicle, "ORIGINAL_VEHICLE_EXCLUDED")
        + Unless(v.status == "AVAILABLE", "VEHICLE_UNAVAILABLE")
        + (Unless(v.driver.Some? && v.driver.value.status == "ON_DUTY", "DRIVER_UNAVAILABLE")
           + Unless(Licensed(v), "LICENSE_MISMATCH"))
        + Unless(r.cargoWeight.Value() <= room, "INSUFFICIENT_CAPACITY")
        + Unless(r.cargoType == "COLD_CHAIN" ==> v.capability == "COLD_CHAIN", "CARGO_CAPABILITY_MISMATCH")
  {
    DriverReasonsOnFields(v);
  }

  /** A leg is refused exactly when no open road carries the vehicle; weight is named when a weightless one gets by. */
  ghost function Refusals(s: Snapshot, u: NodeId, v: NodeId, weight: real, unreachable: string): seq<string> {
    if Carries(s, u, v, weight) then []
    else if Carries(s, u, v, 0.0) then ["ROAD_WEIGHT_RESTRICTION"] + [unreachable]
    else [unreachable]
  }

  lemma LegReasonsOnFields(s: Snapshot, u: NodeId, v: NodeId, weight: real, unreachable: string)
    requires Routable(s)
    ensures LegReasons(s, u, v, weight, unreachable) == Refusals(s, u, v, weight, unreachable)
  {
    EstimateOnFields(s, u, v, weight);
    EstimateOnFields(s, u, v, 0.0);
  }

  // ----- the order

  /** Ahead by score, then by time of arrival, then by id. */
  ghost predicate Ahead(a: Candidate, b: Candidate) {
    && a.score.Some? && b.score.Some? && a.eta.Some? && b.eta.Some?
    && a.score.value.Value() >= b.score.value.Value()
    && (a.score.value.Value() == b.score.value.Value() ==> a.eta.value <= b.eta.value)
    && (a.score.value.Value() == b.score.value.Value() && a.eta.value == b.eta.value ==>
          StringLess(a.vehicleId, b.vehicleId))
  }

  lemma RankOnFields(a: Candidate, b: Candidate)
    requires a.score.Some? && b.score.Some? && a.eta.Some? && b.eta.Some?
    ensures RanksBefore(a, b) ==> Ahead(a, b)
    ensures !RanksBefore(b, a) && a.vehicleId != b.vehicleId ==> Ahead(a, b)
  {
    StringLessTotal();
  }

  lemma EligibleIsScored(s: Snapshot, v: Vehicle, r: Request)
    requires Routable(s) && Evaluate(s, v, r).eligible
    ensures Evaluate(s, v, r).score.Some? && Evaluate(s, v, r).eta.Some?
  {
  }

  /** The selected vehicle is suitable and ahead of every other suitable one. */
  lemma SelectedIsBest(s: Snapshot, fleet: seq<Vehicle>, r: Request) returns (v: Vehicle)
    requires Routable(s) && UniqueVehicles(fleet) && exists u :: u in fleet && Evaluate(s, u, r).eligible
    ensures v in fleet && Evaluate(s, v, r).eligible
    ensures var a := AllocationOf(s, fleet, r);
      && a.selectedVehicle == Some(v.vehicleId) && a.selectedDriver == Some(v.driver.value.driverId)
      && a.pickup == Evaluate(s, v, r).pickup && a.reassigned && a.status == "REASSIGNED" && a.reason == None
    ensures forall u :: u in fleet && u != v && Evaluate(s, u, r).eligible ==>
              Ahead(Evaluate(s, v, r), Evaluate(s, u, r))
  {
    var u :| u in fleet && Evaluate(s, u, r).eligible;
    EligibleExactly(s, u, r);
    SelectionIsUniqueTop(s, fleet, r);
    v := WinnerOf(s, fleet, r);
    EligibleExactly(s, v, r);
    SelectedRecord(s, fleet, r, v);
    forall u | u in fleet && u != v && Evaluate(s, u, r).eligible ensures Ahead(Evaluate(s, v, r), Evaluate(s, u, r)) {
      EligibleExactly(s, u, r);
      WinnerIsAhead(s, r, v, u);
    }
  }

  lemma SelectedRecord(s: Snapshot, fleet: seq<Vehicle>, r: Request, v: Vehicle)
    requires Routable(s) && UniqueVehicles(fleet) && v in fleet && AllocationOf(s, fleet, r).reassigned
    requires AllocationOf(s, fleet, r).selectedVehicle == Some(v.vehicleId)
    ensures var a := AllocationOf(s, fleet, r);
      a.pickup == Evaluate(s, v, r).pickup && a.status == "REASSIGNED" && a.reason == None
  {
    var cs := AllocationOf(s, fleet, r).candidates;
    assert cs[0] in cs;
    var u := AllocatedIsEvaluated(s, fleet, r, cs[0]);
    SameVehicle(fleet, u, v);
  }

  lemma SameVehicle(fleet: seq<Vehicle>, u: Vehicle, v: Vehicle)
    requires UniqueVehicles(fleet) && u in fleet && v in fleet && u.vehicleId == v.vehicleId
    ensures u == v
  {
  }

  /** Without an eligible vehicle nothing is selected, and the result says so. */
  lemma NothingSelected(s: Snapshot, fleet: seq<Vehicle>, r: Request)
    requires Routable(s) && UniqueVehicles(fleet) && forall u :: u in fleet ==> !Evaluate(s, u, r).eligible
    ensures var a := AllocationOf(s, fleet, r);
      && a.selectedVehicle == None && a.selectedDriver == None && a.pickup == None && !a.reassigned
      && a.status == "UNAVAILABLE" && a.reason == Some("NO_REPLACEMENT_VEHICLE")
  {
    if AllocationOf(s, fleet, r).reassigned {
      var v := WinnerOf(s, fleet, r);
      EligibleExactly(s, v, r);
    }
  }

  lemma WinnerIsAhead(s: Snapshot, r: Request, v: Vehicle, u: Vehicle)
    requires Routable(s) && Evaluate(s, v, r).eligible && Evaluate(s, u, r).eligible && Beats(s, r, v, u)
    ensures Ahead(Evaluate(s, v, r), Evaluate(s, u, r))
  {
    EligibleIsScored(s, v, r);
    EligibleIsScored(s, u, r);
    RankOnFields(Evaluate(s, v, r), Evaluate(s, u, r));
  }

  /** Listed in order: eligible ones first and ahead of those listed later, the others behind them by id. */
  lemma ListedInOrder(s: Snapshot, fleet: seq<Vehicle>, r: Request, i: nat, j: nat)
    requires Routable(s) && UniqueVehicles(fleet) && i < j < |AllocationOf(s, fleet, r).candidates|
    ensures var a, b := AllocationOf(s, fleet, r).candidates[i], AllocationOf(s, fleet, r).candidates[j];
      && (b.eligible ==> a.eligible && Ahead(a, b))
      && (!a.eligible ==> StringLess(a.vehicleId, b.vehicleId))
  {
    var cs := AllocationOf(s, fleet, r).candidates;
    AllocationIsRankedFleet(s, fleet, r);
    AllocationIdentified(s, fleet, r);
    assert cs[i] in cs && cs[j] in cs;
    var v := AllocatedIsEvaluated(s, fleet, r, cs[i]);
    var u := AllocatedIsEvaluated(s, fleet, r, cs[j]);
    if cs[i].eligible { EligibleIsScored(s, v, r); }
    if cs[j].eligible { EligibleIsScored(s, u, r); }
    StringLessTotal();
    if cs[i].eligible && cs[j].eligible { RankOnFields(cs[i], cs[j]); }
  }
}
