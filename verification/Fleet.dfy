/** FleetAllocationService: which vehicles can take over a load, and which one is chosen. */
module Fleet {
  import opened Options
  import opened Decimals
  import opened Orders
  import opened RoadNetwork
  import opened PathFinder
  import opened PathTheorems

  datatype Driver = Driver(driverId: string, name: string, licenseClass: string, status: string, node: NodeId)

  datatype Vehicle = Vehicle(
    vehicleId: string, plateNo: string, vehicleType: string, maxLoad: Decimal, currentLoad: Decimal,
    capability: string, grossWeight: Decimal, status: string, node: NodeId, driver: Option<Driver>)
  {
    function RemainingLoad(): Decimal {
      Quantize(maxLoad.Value() - currentLoad.Value(), 2)
    }

    function LoadRatio(): real {
      if maxLoad.Value() == 0.0 then 0.0 else currentLoad.Value() / maxLoad.Value()
    }
  }

  datatype Request = Request(
    originalVehicle: string, incidentNode: NodeId, cargoWeight: Decimal, cargoType: string, destination: Option<NodeId>)

  datatype ScoreComponents = ScoreComponents(
    etaPenalty: real, distancePenalty: real, loadPenalty: real, riskPenalty: real, stationBonus: real, matchBonus: real)

  datatype Candidate = Candidate(
    vehicleId: string, driverId: Option<string>, vehicleStatus: string, remainingLoad: Decimal,
    pickup: Option<PathResult>, eta: Option<int>, components: Option<ScoreComponents>, score: Option<Decimal>,
    eligible: bool, reasons: seq<string>, grossWeight: Decimal, capability: string, driverStatus: Option<string>)

  datatype Allocation = Allocation(
    originalVehicle: string, candidates: seq<Candidate>, selectedVehicle: Option<string>,
    selectedDriver: Option<string>,
    pickup: Option<PathResult>, reassigned: bool, status: string, reason: Option<string>)

  // ----- travel times

  /** A snapshot on which fastest paths can be asked for every vehicle weight. */
  ghost predicate Routable(s: Snapshot) {
    && UniqueIds(s.edges)
    && (forall e :: e in s.edges ==> e.riskLevel in RISK_PENALTIES && TravelMinutes(e) >= 0.0)
  }

  function Fast(u: NodeId, v: NodeId, weight: real): Trip {
    Trip(u, v, Fastest, weight, {})
  }

  lemma RoutableSearchable(s: Snapshot, u: NodeId, v: NodeId, weight: real)
    requires Routable(s)
    ensures Searchable(s, Fast(u, v, weight))
  {
    UsableNetMembers(s, weight, {});
    ByIdMembers(s.edges);
  }

  ghost function Estimate(s: Snapshot, u: NodeId, v: NodeId, weight: real): Option<PathResult>
    requires Routable(s)
  {
    RoutableSearchable(s, u, v, weight);
    Find(s, Fast(u, v, weight))
  }

  method EstimatePath(s: Snapshot, u: NodeId, v: NodeId, weight: real) returns (r: Option<PathResult>)
    requires Routable(s)
    ensures r == Estimate(s, u, v, weight)
  {
    RoutableSearchable(s, u, v, weight);
    r := FindPath(s, Fast(u, v, weight));
  }

  /** Both endpoints exist and a vehicle of this weight can drive from one to the other. */
  ghost predicate CanDrive(s: Snapshot, u: NodeId, v: NodeId, weight: real) {
    u in NodeIds(s) && v in NodeIds(s) && Joined(UsableNet(s, weight, {}), u, v)
  }

  lemma EstimateIffCanDrive(s: Snapshot, u: NodeId, v: NodeId, weight: real)
    requires Routable(s)
    ensures Estimate(s, u, v, weight).Some? <==> CanDrive(s, u, v, weight)
  {
    RoutableSearchable(s, u, v, weight);
    FindsPathIffJoined(s, Fast(u, v, weight));
  }

  ghost predicate WeightRestricted(s: Snapshot, u: NodeId, v: NodeId, weight: real)
    requires Routable(s)
  {
    Estimate(s, u, v, weight).None? && Estimate(s, u, v, 0.0).Some?
  }

  method IsWeightRestricted(s: Snapshot, u: NodeId, v: NodeId, weight: real) returns (b: bool)
    requires Routable(s)
    ensures b == WeightRestricted(s, u, v, weight)
  {
    var loaded := EstimatePath(s, u, v, weight);
    if loaded.Some? {
      return false;
    }
    var weightless := EstimatePath(s, u, v, 0.0);
    return weightless.Some?;
  }

  /** The diagnosis holds exactly when weight is what closes the way, and stays true for heavier vehicles. */
  lemma WeightRestrictionExact(s: Snapshot, u: NodeId, v: NodeId, weight: real, heavier: real)
    requires Routable(s) && weight <= heavier
    ensures WeightRestricted(s, u, v, weight) <==> CanDrive(s, u, v, 0.0) && !CanDrive(s, u, v, weight)
    ensures WeightRestricted(s, u, v, weight) ==> WeightRestricted(s, u, v, heavier)
  {
    EstimateIffCanDrive(s, u, v, weight);
    EstimateIffCanDrive(s, u, v, 0.0);
    RoutableSearchable(s, u, v, weight);
    RoutableSearchable(s, u, v, heavier);
    RestrictingNeverHelps(s, Fast(u, v, weight), Fast(u, v, heavier));
  }

  // ----- risk level of a path

  function RiskLevel(riskCost: int): string {
    if riskCost >= 12 then "HIGH" else if riskCost > 0 then "MEDIUM" else "LOW"
  }

  function CountLevel(net: Net, ids: seq<EdgeId>, level: string): nat {
    if ids == [] then 0
    else
      var id := ids[|ids| - 1];
      CountLevel(net, ids[..|ids| - 1], level) + (if id in net && net[id].riskLevel == level then 1 else 0)
  }

  lemma {:induction false} RiskCostCounts(net: Net, ids: seq<EdgeId>)
    ensures RiskCost(net, ids) == 4 * CountLevel(net, ids, "MEDIUM") + 12 * CountLevel(net, ids, "HIGH")
  {
    if ids != [] {
      RiskCostCounts(net, ids[..|ids| - 1]);
    }
  }

  lemma {:induction false} CountPositive(net: Net, ids: seq<EdgeId>, level: string)
    ensures CountLevel(net, ids, level) > 0 <==>
            exists i :: 0 <= i < |ids| && ids[i] in net && net[ids[i]].riskLevel == level
  {
    if ids != [] {
      var n := |ids| - 1;
      CountPositive(net, ids[..n], level);
      if exists i :: 0 <= i < |ids| && ids[i] in net && net[ids[i]].riskLevel == level {
        var i :| 0 <= i < |ids| && ids[i] in net && net[ids[i]].riskLevel == level;
        assert i < n ==> ids[..n][i] == ids[i];
      }
      assert forall i :: 0 <= i < n ==> ids[..n][i] == ids[i];
    }
  }

  /** LOW means every edge is LOW; HIGH means a HIGH edge or at least three MEDIUM ones. */
  lemma RiskLevelMeaning(net: Net, ids: seq<EdgeId>)
    requires forall i :: 0 <= i < |ids| ==> ids[i] in net && net[ids[i]].riskLevel in RISK_PENALTIES
    ensures RiskLevel(RiskCost(net, ids)) == "LOW" <==> forall i :: 0 <= i < |ids| ==> net[ids[i]].riskLevel == "LOW"
    ensures RiskLevel(RiskCost(net, ids)) == "HIGH" <==>
              (exists i :: 0 <= i < |ids| && net[ids[i]].riskLevel == "HIGH") || CountLevel(net, ids, "MEDIUM") >= 3
  {
    RiskCostCounts(net, ids);
    CountPositive(net, ids, "MEDIUM");
    CountPositive(net, ids, "HIGH");
  }

  // ----- one vehicle

  const LIGHT_VEHICLE_TYPES: set<string> := {"VAN", "REFRIGERATED_VAN", "ELECTRIC_VAN", "TRICYCLE"}
  const ROAD_RISK_PENALTIES: map<string, real> := map["LOW" := 0.0, "MEDIUM" := 6.0, "HIGH" := 15.0]

  predicate LicenseMatches(v: Vehicle) {
    v.driver.Some? &&
    v.driver.value.licenseClass in (if v.vehicleType in LIGHT_VEHICLE_TYPES then {"C1", "B2"} else {"B2"})
  }

  function When(b: bool, reason: string): seq<string> {
    if b then [reason] else []
  }

  function DriverReasons(v: Vehicle): seq<string> {
    match v.driver
    case None => ["DRIVER_UNAVAILABLE"]
    case Some(d) => When(d.status != "ON_DUTY", "DRIVER_UNAVAILABLE") + When(!LicenseMatches(v), "LICENSE_MISMATCH")
  }

  function CheapReasons(v: Vehicle, r: Request): seq<string> {
    When(v.vehicleId == r.originalVehicle, "ORIGINAL_VEHICLE_EXCLUDED")
    + When(v.status != "AVAILABLE", "VEHICLE_UNAVAILABLE")
    + DriverReasons(v)
    + When(v.RemainingLoad().Value() < r.cargoWeight.Value(), "INSUFFICIENT_CAPACITY")
    + When(r.cargoType == "COLD_CHAIN" && v.capability != "COLD_CHAIN", "CARGO_CAPABILITY_MISMATCH")
  }

  ghost function LegReasons(s: Snapshot, u: NodeId, v: NodeId, weight: real, unreachable: string): seq<string>
    requires Routable(s)
  {
    if Estimate(s, u, v, weight).Some? then []
    else When(WeightRestricted(s, u, v, weight), "ROAD_WEIGHT_RESTRICTION") + [unreachable]
  }

  function Components(v: Vehicle, r: Request, pickup: PathResult): ScoreComponents {
    ScoreComponents(
      pickup.minutes as real * 1.5,
      pickup.distance.Value() * 2.0,
      v.LoadRatio() * 20.0,
      ROAD_RISK_PENALTIES[RiskLevel(pickup.riskCost)],
      if v.node == r.incidentNode then 8.0 else 0.0,
      if v.capability == r.cargoType then 10.0 else 0.0)
  }

  function Score(c: ScoreComponents): Decimal {
    var penalties := c.etaPenalty + c.distancePenalty + c.loadPenalty + c.riskPenalty;
    Quantize(100.0 - penalties + c.stationBonus + c.matchBonus, 1)
  }

  lemma RiskPenaltyMonotone(a: int, b: int)
    requires a <= b
    ensures ROAD_RISK_PENALTIES[RiskLevel(a)] <= ROAD_RISK_PENALTIES[RiskLevel(b)]
  {
  }

  /** A vehicle that is nearer in time and distance, less loaded and less exposed, and misses no bonus
      the other one gets, never scores less. */
  lemma BetterNeverScoresLess(v: Vehicle, u: Vehicle, r: Request, p: PathResult, p': PathResult)
    requires p.minutes <= p'.minutes && p.distance.Value() <= p'.distance.Value() && p.riskCost <= p'.riskCost
    requires v.LoadRatio() <= u.LoadRatio()
    requires (u.node == r.incidentNode ==> v.node == r.incidentNode)
    requires (u.capability == r.cargoType ==> v.capability == r.cargoType)
    ensures Score(Components(v, r, p)).Value() >= Score(Components(u, r, p')).Value()
  {
    RiskPenaltyMonotone(p.riskCost, p'.riskCost);
    var a, b := Components(v, r, p), Components(u, r, p');
    assert a.etaPenalty <= b.etaPenalty && a.distancePenalty <= b.distancePenalty && a.loadPenalty <= b.loadPenalty;
    QuantizeMonotone(
      100.0 - b.etaPenalty - b.distancePenalty - b.loadPenalty - b.riskPenalty + b.stationBonus + b.matchBonus,
      100.0 - a.etaPenalty - a.distancePenalty - a.loadPenalty - a.riskPenalty + a.stationBonus + a.matchBonus, 1);
  }

  function CandidateOf(v: Vehicle, r: Request, pickup: Option<PathResult>, reasons: seq<string>): Candidate {
    var components := match pickup case None => None case Some(p) => Some(Components(v, r, p));
    Candidate(
      v.vehicleId,
      match v.driver case None => None case Some(d) => Some(d.driverId),
      v.status, v.RemainingLoad(), pickup,
      match pickup case None => None case Some(p) => Some(p.minutes),
      components,
      match components case None => None case Some(c) => Some(Score(c)),
      pickup.Some? && reasons == [], reasons, v.grossWeight, v.capability,
      match v.driver case None => None case Some(d) => Some(d.status))
  }

  ghost function Evaluate(s: Snapshot, v: Vehicle, r: Request): Candidate
    requires Routable(s)
  {
    var w := v.grossWeight.Value();
    var pickup := Estimate(s, v.node, r.incidentNode, w);
    var toIncident := LegReasons(s, v.node, r.incidentNode, w, "PICKUP_UNREACHABLE");
    var onwards := if pickup.None? || r.destination.None? then []
                   else LegReasons(s, r.incidentNode, r.destination.value, w, "DELIVERY_UNREACHABLE");
    CandidateOf(v, r, pickup, CheapReasons(v, r) + toIncident + onwards)
  }

  method Append(reasons: seq<string>, b: bool, reason: string) returns (r: seq<string>)
    ensures r == reasons + When(b, reason)
  {
    r := if b then reasons + [reason] else reasons;
  }

  method AppendDriverReasons(v: Vehicle, reasons: seq<string>) returns (r: seq<string>)
    ensures r == reasons + DriverReasons(v)
  {
    match v.driver {
      case None =>
        r := reasons + ["DRIVER_UNAVAILABLE"];
      case Some(d) =>
        r := Append(reasons, d.status != "ON_DUTY", "DRIVER_UNAVAILABLE");
        r := Append(r, !LicenseMatches(v), "LICENSE_MISMATCH");
    }
  }

  method CollectCheapReasons(v: Vehicle, r: Request) returns (reasons: seq<string>)
    ensures reasons == CheapReasons(v, r)
  {
    reasons := Append([], v.vehicleId == r.originalVehicle, "ORIGINAL_VEHICLE_EXCLUDED");
    reasons := Append(reasons, v.status != "AVAILABLE", "VEHICLE_UNAVAILABLE");
    reasons := AppendDriverReasons(v, reasons);
    reasons := Append(reasons, v.RemainingLoad().Value() < r.cargoWeight.Value(), "INSUFFICIENT_CAPACITY");
    var unfit := r.cargoType == "COLD_CHAIN" && v.capability != "COLD_CHAIN";
    reasons := Append(reasons, unfit, "CARGO_CAPABILITY_MISMATCH");
  }

  method TryLeg(s: Snapshot, u: NodeId, v: NodeId, weight: real, unreachable: string, reasons0: seq<string>)
    returns (path: Option<PathResult>, reasons: seq<string>)
    requires Routable(s)
    ensures path == Estimate(s, u, v, weight)
    ensures reasons == reasons0 + LegReasons(s, u, v, weight, unreachable)
  {
    path := EstimatePath(s, u, v, weight);
    reasons := reasons0;
    if path.None? {
      var restricted := IsWeightRestricted(s, u, v, weight);
      reasons := Append(reasons, restricted, "ROAD_WEIGHT_RESTRICTION");
      reasons := reasons + [unreachable];
    }
  }

  method EvaluateVehicle(s: Snapshot, v: Vehicle, r: Request) returns (c: Candidate)
    requires Routable(s)
    ensures c == Evaluate(s, v, r)
  {
    var w := v.grossWeight.Value();
    var reasons := CollectCheapReasons(v, r);
    var pickup, delivery;
    pickup, reasons := TryLeg(s, v.node, r.incidentNode, w, "PICKUP_UNREACHABLE", reasons);
    if pickup.Some? && r.destination.Some? {
      delivery, reasons := TryLeg(s, r.incidentNode, r.destination.value, w, "DELIVERY_UNREACHABLE", reasons);
    } else {
      assert reasons == reasons + [];
    }
    return CandidateOf(v, r, pickup, reasons);
  }

  /** The rules a replacement vehicle must meet on paper. */
  ghost predicate Fit(v: Vehicle, r: Request) {
    && v.vehicleId != r.originalVehicle && v.status == "AVAILABLE"
    && v.driver.Some? && v.driver.value.status == "ON_DUTY"
    && (v.driver.value.licenseClass == "B2"
      || (v.driver.value.licenseClass == "C1" && v.vehicleType in LIGHT_VEHICLE_TYPES))
    && v.RemainingLoad().Value() >= r.cargoWeight.Value()
    && (r.cargoType == "COLD_CHAIN" ==> v.capability == "COLD_CHAIN")
  }

  /** The roads a replacement vehicle must be able to drive. */
  ghost predicate CanServe(s: Snapshot, v: Vehicle, r: Request) {
    && CanDrive(s, v.node, r.incidentNode, v.grossWeight.Value())
    && (r.destination.Some? ==> CanDrive(s, r.incidentNode, r.destination.value, v.grossWeight.Value()))
  }

  ghost predicate Suitable(s: Snapshot, r: Request, v: Vehicle) {
    Fit(v, r) && CanServe(s, v, r)
  }

  lemma CheapReasonsExact(v: Vehicle, r: Request)
    ensures CheapReasons(v, r) == [] <==> Fit(v, r)
  {
  }

  /** A vehicle is eligible exactly when it meets the paper rules and can drive both legs. */
  lemma EligibleExactly(s: Snapshot, v: Vehicle, r: Request)
    requires Routable(s)
    ensures Evaluate(s, v, r).eligible <==> Suitable(s, r, v)
  {
    var w := v.grossWeight.Value();
    CheapReasonsExact(v, r);
    EstimateIffCanDrive(s, v.node, r.incidentNode, w);
    if r.destination.Some? { EstimateIffCanDrive(s, r.incidentNode, r.destination.value, w); }
  }

  /** What eligibility puts on record about a candidate. */
  predicate OnRecord(c: Candidate, r: Request) {
    && c.vehicleId != r.originalVehicle && c.vehicleStatus == "AVAILABLE" && c.driverStatus == Some("ON_DUTY")
    && c.reasons == [] && c.remainingLoad.Value() >= r.cargoWeight.Value()
    && (r.cargoType == "COLD_CHAIN" ==> c.capability == "COLD_CHAIN")
  }

  lemma EligibleRecord(s: Snapshot, v: Vehicle, r: Request)
    requires Routable(s) && Evaluate(s, v, r).eligible
    ensures OnRecord(Evaluate(s, v, r), r)
  {
    EligibleExactly(s, v, r);
  }

  // ----- the whole fleet

  ghost function Evaluated(s: Snapshot, fleet: seq<Vehicle>, r: Request): seq<Candidate>
    requires Routable(s)
  {
    seq(|fleet|, i requires 0 <= i < |fleet| => Evaluate(s, fleet[i], r))
  }

  function Keep(cs: seq<Candidate>, eligible: bool): (k: seq<Candidate>)
    ensures forall c :: c in k <==> c in cs && c.eligible == eligible
  {
    if cs == [] then []
    else (if cs[0].eligible == eligible then [cs[0]] else []) + Keep(cs[1..], eligible)
  }

  function ScoreValue(c: Candidate): real {
    match c.score case None => 0.0 case Some(d) => d.Value()
  }

  function EtaValue(c: Candidate): int {
    match c.eta case None => 0 case Some(m) => m
  }

  /** The sort key (-score, eta, vehicle id), in ascending order. */
  predicate RanksBefore(a: Candidate, b: Candidate) {
    ScoreValue(a) > ScoreValue(b) ||
    (ScoreValue(a) == ScoreValue(b) &&
      (EtaValue(a) < EtaValue(b) || (EtaValue(a) == EtaValue(b) && StringLess(a.vehicleId, b.vehicleId))))
  }

  predicate IdBefore(a: Candidate, b: Candidate) {
    StringLess(a.vehicleId, b.vehicleId)
  }

  function Ranked(cs: seq<Candidate>): seq<Candidate> {
    Sorted(RanksBefore, Keep(cs, true)) + Sorted(IdBefore, Keep(cs, false))
  }

  function Conclude(r: Request, ordered: seq<Candidate>): Allocation {
    if ordered == [] || !ordered[0].eligible then
      Allocation(r.originalVehicle, ordered, None, None, None, false, "UNAVAILABLE", Some("NO_REPLACEMENT_VEHICLE"))
    else
      var top := ordered[0];
      Allocation(r.originalVehicle, ordered, Some(top.vehicleId), top.driverId, top.pickup, true, "REASSIGNED", None)
  }

  ghost function AllocationOf(s: Snapshot, fleet: seq<Vehicle>, r: Request): Allocation
    requires Routable(s)
  {
    Conclude(r, Ranked(Evaluated(s, fleet, r)))
  }

  method Allocate(s: Snapshot, fleet: seq<Vehicle>, r: Request) returns (a: Allocation)
    requires Routable(s)
    ensures a == AllocationOf(s, fleet, r)
  {
    var candidates: seq<Candidate> := [];
    for k := 0 to |fleet|
      invariant |candidates| == k && forall i :: 0 <= i < k ==> candidates[i] == Evaluate(s, fleet[i], r)
    {
      var c := EvaluateVehicle(s, fleet[k], r);
      candidates := candidates + [c];
    }
    assert candidates == Evaluated(s, fleet, r);
    a := Finish(r, candidates);
  }

  method Finish(r: Request, candidates: seq<Candidate>) returns (a: Allocation)
    ensures a == Conclude(r, Ranked(candidates))
  {
    var eligible := Sorted(RanksBefore, Keep(candidates, true));
    var rejected := Sorted(IdBefore, Keep(candidates, false));
    var ordered := eligible + rejected;
    OrdersAreWeak();
    SortedMembers(RanksBefore, Keep(candidates, true));
    SortedMembers(IdBefore, Keep(candidates, false));
    if eligible == [] {
      assert ordered != [] ==> ordered[0] in rejected;
      return Allocation(
        r.originalVehicle, ordered, None, None, None, false, "UNAVAILABLE", Some("NO_REPLACEMENT_VEHICLE"));
    }
    var top := eligible[0];
    assert top in eligible;
    return Allocation(
      r.originalVehicle, ordered, Some(top.vehicleId), top.driverId, top.pickup, true, "REASSIGNED", None);
  }

  lemma OrdersAreWeak()
    ensures StrictWeak(RanksBefore) && StrictWeak(IdBefore)
  {
    StringLessTotal();
  }

  ghost predicate UniqueVehicles(fleet: seq<Vehicle>) {
    forall i, j :: 0 <= i < j < |fleet| ==> fleet[i].vehicleId != fleet[j].vehicleId
  }

  ghost predicate Identified(cs: seq<Candidate>) {
    forall c, d :: c in cs && d in cs && c != d ==> c.vehicleId != d.vehicleId
  }

  // ----- ranking a list of candidates

  lemma {:induction false} KeepSplits(cs: seq<Candidate>)
    ensures multiset(Keep(cs, true)) + multiset(Keep(cs, false)) == multiset(cs)
  {
    if cs != [] {
      KeepSplits(cs[1..]);
      assert cs == [cs[0]] + cs[1..];
    }
  }

  lemma RankSorted(cs: seq<Candidate>)
    ensures IsSorted(RanksBefore, Sorted(RanksBefore, cs)) && multiset(Sorted(RanksBefore, cs)) == multiset(cs)
  {
    OrdersAreWeak();
    SortedIsSortedPermutation(RanksBefore, cs);
  }

  lemma IdSorted(cs: seq<Candidate>)
    ensures IsSorted(IdBefore, Sorted(IdBefore, cs)) && multiset(Sorted(IdBefore, cs)) == multiset(cs)
  {
    OrdersAreWeak();
    SortedIsSortedPermutation(IdBefore, cs);
  }

  lemma SameMembers<T>(a: seq<T>, b: seq<T>)
    requires multiset(a) == multiset(b)
    ensures |a| == |b| && forall x :: x in a <==> x in b
  {
    assert |multiset(a)| == |multiset(b)|;
    forall x ensures x in a <==> x in b {
      assert x in a <==> x in multiset(a);
      assert x in b <==> x in multiset(b);
    }
  }

  ghost predicate InRankOrder(cs: seq<Candidate>) {
    forall i, j :: 0 <= i < j < |cs| ==>
      && (cs[j].eligible ==> cs[i].eligible && !RanksBefore(cs[j], cs[i]))
      && (!cs[i].eligible ==> !IdBefore(cs[j], cs[i]))
  }

  lemma RankedIsOrdered(all: seq<Candidate>)
    ensures multiset(Ranked(all)) == multiset(all) && InRankOrder(Ranked(all))
  {
    var good, bad := Sorted(RanksBefore, Keep(all, true)), Sorted(IdBefore, Keep(all, false));
    KeepSplits(all);
    RankSorted(Keep(all, true));
    IdSorted(Keep(all, false));
    SameMembers(good, Keep(all, true));
    SameMembers(bad, Keep(all, false));
    var cs := Ranked(all);
    forall i | 0 <= i < |cs| ensures cs[i].eligible <==> i < |good| {
      if i < |good| { assert cs[i] in good; } else { assert cs[i] == bad[i - |good|] && cs[i] in bad; }
    }
    forall i, j | 0 <= i < j < |cs|
      ensures (cs[j].eligible ==> !RanksBefore(cs[j], cs[i])) && (!cs[i].eligible ==> !IdBefore(cs[j], cs[i]))
    {
      if j < |good| { assert !RanksBefore(good[j], good[i]); }
      if i >= |good| { assert !IdBefore(bad[j - |good|], bad[i - |good|]); }
    }
  }

  /** The first of the ranking is eligible whenever anyone is, and strictly beats every other eligible one. */
  lemma RankedTop(all: seq<Candidate>)
    requires Identified(all)
    ensures (Ranked(all) != [] && Ranked(all)[0].eligible) <==> exists c :: c in all && c.eligible
    ensures Ranked(all) != [] ==> Ranked(all)[0] in all
    ensures Ranked(all) != [] ==>
              forall c :: c in all && c.eligible && c != Ranked(all)[0] ==> RanksBefore(Ranked(all)[0], c)
  {
    var cs := Ranked(all);
    RankedIsOrdered(all);
    SameMembers(cs, all);
    forall c | c in all && c.eligible ensures cs != [] && cs[0].eligible && (c != cs[0] ==> RanksBefore(cs[0], c)) {
      var i :| 0 <= i < |cs| && cs[i] == c;
      if i > 0 && c != cs[0] {
        assert cs[0] in all;
        OrdersAreTotal(cs[0], c);
      }
    }
    if cs != [] { assert cs[0] in cs; }
  }

  lemma OrdersAreTotal(a: Candidate, b: Candidate)
    requires a.vehicleId != b.vehicleId
    ensures RanksBefore(a, b) || RanksBefore(b, a)
    ensures IdBefore(a, b) || IdBefore(b, a)
  {
    StringLessTotal();
  }

  lemma KeepPermutation(a: seq<Candidate>, b: seq<Candidate>, flag: bool)
    requires multiset(a) == multiset(b)
    ensures multiset(Keep(a, flag)) == multiset(Keep(b, flag))
  {
    KeepSplits(a);
    KeepSplits(b);
    forall c ensures multiset(Keep(a, flag))[c] == multiset(Keep(b, flag))[c] {
      KeepCount(a, flag, c);
      KeepCount(b, flag, c);
    }
  }

  lemma KeepCount(a: seq<Candidate>, flag: bool, c: Candidate)
    ensures multiset(Keep(a, flag))[c] == if c.eligible == flag then multiset(a)[c] else 0
  {
    KeepSplits(a);
    assert c in multiset(Keep(a, flag)) <==> c in Keep(a, flag);
    assert c in multiset(Keep(a, !flag)) <==> c in Keep(a, !flag);
    assert multiset(a)[c] == multiset(Keep(a, true))[c] + multiset(Keep(a, false))[c];
  }

  /** The ranking depends only on who is ranked. */
  lemma RankedIsCanonical(x: seq<Candidate>, y: seq<Candidate>)
    requires multiset(x) == multiset(y) && Identified(x)
    ensures Ranked(x) == Ranked(y)
  {
    forall flag ensures multiset(Keep(x, flag)) == multiset(Keep(y, flag)) { KeepPermutation(x, y, flag); }
    forall c, d | c in x && d in x && c != d
      ensures (RanksBefore(c, d) || RanksBefore(d, c)) && (IdBefore(c, d) || IdBefore(d, c))
    {
      OrdersAreTotal(c, d);
    }
    RankSorted(Keep(x, true));
    RankSorted(Keep(y, true));
    SameMembers(Sorted(RanksBefore, Keep(x, true)), Keep(x, true));
    SortedUnique(RanksBefore, Sorted(RanksBefore, Keep(x, true)), Sorted(RanksBefore, Keep(y, true)));
    IdSorted(Keep(x, false));
    IdSorted(Keep(y, false));
    SameMembers(Sorted(IdBefore, Keep(x, false)), Keep(x, false));
    SortedUnique(IdBefore, Sorted(IdBefore, Keep(x, false)), Sorted(IdBefore, Keep(y, false)));
  }

  // ----- what allocation promises

  lemma IdentifiedLikeFleet(fleet: seq<Vehicle>, x: seq<Candidate>)
    requires UniqueVehicles(fleet) && |x| == |fleet| && forall i :: 0 <= i < |x| ==>
             x[i].vehicleId == fleet[i].vehicleId
    ensures Identified(x) && Distinct(x)
  {
  }

  lemma EvaluatedIdentified(s: Snapshot, fleet: seq<Vehicle>, r: Request)
    requires Routable(s) && UniqueVehicles(fleet)
    ensures Identified(Evaluated(s, fleet, r)) && Distinct(Evaluated(s, fleet, r))
  {
    IdentifiedLikeFleet(fleet, Evaluated(s, fleet, r));
  }

  lemma InEvaluated(s: Snapshot, fleet: seq<Vehicle>, r: Request, v: Vehicle)
    requires Routable(s) && v in fleet
    ensures Evaluate(s, v, r) in Evaluated(s, fleet, r)
  {
    var i :| 0 <= i < |fleet| && fleet[i] == v;
    assert Evaluated(s, fleet, r)[i] == Evaluate(s, v, r);
  }

  lemma AllocatedIsEvaluated(s: Snapshot, fleet: seq<Vehicle>, r: Request, c: Candidate) returns (v: Vehicle)
    requires Routable(s) && c in AllocationOf(s, fleet, r).candidates
    ensures v in fleet && c == Evaluate(s, v, r)
  {
    var all := Evaluated(s, fleet, r);
    RankedIsOrdered(all);
    SameMembers(Ranked(all), all);
    var i :| 0 <= i < |all| && all[i] == c;
    v := fleet[i];
  }

  lemma IdentifiedPermutation(all: seq<Candidate>, cs: seq<Candidate>)
    requires Identified(all) && Distinct(all) && multiset(cs) == multiset(all)
    ensures forall i, j :: 0 <= i < j < |cs| ==> cs[i].vehicleId != cs[j].vehicleId
  {
    SameMembers(cs, all);
    DistinctPermutation(all, cs);
    forall i, j | 0 <= i < j < |cs| ensures cs[i].vehicleId != cs[j].vehicleId {
      assert cs[i] in all && cs[j] in all;
    }
  }

  /** No two entries of an allocation carry the same vehicle id. */
  lemma AllocationIdentified(s: Snapshot, fleet: seq<Vehicle>, r: Request)
    requires Routable(s) && UniqueVehicles(fleet)
    ensures var cs := AllocationOf(s, fleet, r).candidates;
      forall i, j :: 0 <= i < j < |cs| ==> cs[i].vehicleId != cs[j].vehicleId
  {
    EvaluatedIdentified(s, fleet, r);
    AllocationIsRankedFleet(s, fleet, r);
    IdentifiedPermutation(Evaluated(s, fleet, r), AllocationOf(s, fleet, r).candidates);
  }

  /** The output lists the whole fleet once: eligible vehicles first, in rank order, then the others by id. */
  lemma AllocationIsRankedFleet(s: Snapshot, fleet: seq<Vehicle>, r: Request)
    requires Routable(s)
    ensures multiset(AllocationOf(s, fleet, r).candidates) == multiset(Evaluated(s, fleet, r))
    ensures InRankOrder(AllocationOf(s, fleet, r).candidates)
  {
    RankedIsOrdered(Evaluated(s, fleet, r));
  }

  ghost predicate Beats(s: Snapshot, r: Request, v: Vehicle, u: Vehicle)
    requires Routable(s)
  {
    RanksBefore(Evaluate(s, v, r), Evaluate(s, u, r))
  }

  /** A vehicle is chosen exactly when a suitable one exists; the choice is suitable and beats every other
      suitable one. */
  lemma SelectionIsUniqueTop(s: Snapshot, fleet: seq<Vehicle>, r: Request)
    requires Routable(s) && UniqueVehicles(fleet)
    ensures AllocationOf(s, fleet, r).reassigned <==> exists v :: v in fleet && Suitable(s, r, v)
    ensures AllocationOf(s, fleet, r).reassigned ==>
      exists v :: v in fleet && Suitable(s, r, v)
        && AllocationOf(s, fleet, r).selectedVehicle == Some(v.vehicleId)
        && AllocationOf(s, fleet, r).selectedDriver == Some(v.driver.value.driverId)
        && forall u :: u in fleet && u != v && Suitable(s, r, u) ==> Beats(s, r, v, u)
  {
    var all := Evaluated(s, fleet, r);
    EvaluatedIdentified(s, fleet, r);
    RankedTop(all);
    if exists v :: v in fleet && Suitable(s, r, v) {
      var v :| v in fleet && Suitable(s, r, v);
      EligibleExactly(s, v, r);
      InEvaluated(s, fleet, r, v);
    }
    if AllocationOf(s, fleet, r).reassigned {
      var v := WinnerOf(s, fleet, r);
    }
  }

  lemma WinnerOf(s: Snapshot, fleet: seq<Vehicle>, r: Request) returns (v: Vehicle)
    requires Routable(s) && UniqueVehicles(fleet) && AllocationOf(s, fleet, r).reassigned
    ensures v in fleet && Suitable(s, r, v)
    ensures AllocationOf(s, fleet, r).selectedVehicle == Some(v.vehicleId)
    ensures AllocationOf(s, fleet, r).selectedDriver == Some(v.driver.value.driverId)
    ensures forall u :: u in fleet && u != v && Suitable(s, r, u) ==> Beats(s, r, v, u)
  {
    var all := Evaluated(s, fleet, r);
    EvaluatedIdentified(s, fleet, r);
    RankedTop(all);
    var k :| 0 <= k < |all| && all[k] == Ranked(all)[0];
    v := fleet[k];
    EligibleExactly(s, v, r);
    assert AllocationOf(s, fleet, r).selectedDriver == Evaluate(s, v, r).driverId;
    forall u | u in fleet && u != v && Suitable(s, r, u) ensures Beats(s, r, v, u) {
      TopBeats(s, fleet, r, v, u);
    }
  }

  lemma TopBeats(s: Snapshot, fleet: seq<Vehicle>, r: Request, v: Vehicle, u: Vehicle)
    requires Routable(s) && UniqueVehicles(fleet) && u in fleet && v in fleet && u != v && Suitable(s, r, u)
    requires Ranked(Evaluated(s, fleet, r)) != [] && Evaluate(s, v, r) == Ranked(Evaluated(s, fleet, r))[0]
    ensures Beats(s, r, v, u)
  {
    EvaluatedIdentified(s, fleet, r);
    RankedTop(Evaluated(s, fleet, r));
    EligibleExactly(s, u, r);
    InEvaluated(s, fleet, r, u);
    assert u.vehicleId != v.vehicleId;
    assert Evaluate(s, u, r).vehicleId == u.vehicleId && Evaluate(s, v, r).vehicleId == v.vehicleId;
  }

  function Removed<T>(s: seq<T>, j: nat): (r: seq<T>)
    requires j < |s|
    ensures |r| == |s| - 1 && forall k :: 0 <= k < |r| ==> r[k] == s[if k < j then k else k + 1]
  {
    s[..j] + s[j + 1..]
  }

  lemma RemoveOne<T>(s: seq<T>, j: nat)
    requires j < |s|
    ensures multiset(s) == multiset(Removed(s, j)) + multiset{s[j]}
    ensures multiset(Removed(s, j)) == multiset(s) - multiset{s[j]}
  {
    assert s == s[..j] + [s[j]] + s[j + 1..];
  }

  ghost predicate Maps<A, B>(a: seq<A>, b: seq<A>, x: seq<B>, y: seq<B>) {
    |x| == |a| && |y| == |b| && forall i, j :: 0 <= i < |a| && 0 <= j < |b| && a[i] == b[j] ==> x[i] == y[j]
  }

  lemma {:induction false} PermutationMaps<A, B>(a: seq<A>, b: seq<A>, x: seq<B>, y: seq<B>)
    requires multiset(a) == multiset(b) && Maps(a, b, x, y)
    ensures multiset(x) == multiset(y)
  {
    assert |multiset(a)| == |multiset(b)|;
    if a != [] {
      assert a[0] in multiset(b);
      var j :| 0 <= j < |b| && b[j] == a[0];
      RemoveOne(a, 0);
      RemoveOne(b, j);
      RemoveOne(x, 0);
      RemoveOne(y, j);
      PermutationMaps(Removed(a, 0), Removed(b, j), Removed(x, 0), Removed(y, j));
    }
  }

  /** The allocation does not depend on the order in which the provider lists the fleet. */
  lemma AllocationIgnoresProviderOrder(s: Snapshot, a: seq<Vehicle>, b: seq<Vehicle>, r: Request)
    requires Routable(s) && UniqueVehicles(a) && multiset(a) == multiset(b)
    ensures AllocationOf(s, a, r) == AllocationOf(s, b, r)
  {
    PermutationMaps(a, b, Evaluated(s, a, r), Evaluated(s, b, r));
    EvaluatedIdentified(s, a, r);
    RankedIsCanonical(Evaluated(s, a, r), Evaluated(s, b, r));
  }
}
