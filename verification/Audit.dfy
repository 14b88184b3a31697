/** AuditService: the verdict on a dispatch, and its own check of the recommended path. */
module Audit {
  import opened Options
  import opened Decimals
  import opened RoadNetwork
  import opened PathFinder
  import opened PathTheorems

  // ----- the path, checked against the road edges of the workflow state

  datatype EdgeRow = EdgeRow(
    edgeId: Option<string>, fromNode: Option<string>, toNode: Option<string>, status: Option<string>,
    bidirectional: bool)

  const ALLOWED_STATUSES: set<string> := {"OPEN", "CONGESTED", "RESTRICTED"}

  /** How the routing service writes an edge into the state. */
  function EdgeToRow(e: RoadEdge): EdgeRow {
    EdgeRow(Some(e.edgeId), Some(e.fromNode), Some(e.toNode), Some(e.status), e.bidirectional)
  }

  function RowsOf(edges: seq<RoadEdge>): seq<EdgeRow> {
    if edges == [] then [] else RowsOf(edges[..|edges| - 1]) + [EdgeToRow(edges[|edges| - 1])]
  }

  function RowsById(rows: seq<EdgeRow>): map<string, EdgeRow> {
    if rows == [] then map[]
    else
      var row := rows[|rows| - 1];
      var earlier := RowsById(rows[..|rows| - 1]);
      match Text(row.edgeId)
      case None => earlier
      case Some(id) => earlier[id := row]
  }

  predicate RowCrosses(row: EdgeRow, u: string, v: string) {
    || (Text(row.fromNode) == Some(u) && Text(row.toNode) == Some(v))
    || (row.bidirectional && Text(row.toNode) == Some(u) && Text(row.fromNode) == Some(v))
  }

  ghost predicate Connects(nodes: seq<string>, ids: seq<string>, rows: seq<EdgeRow>) {
    && ids != [] && |nodes| == |ids| + 1
    && forall i :: 0 <= i < |ids| ==>
         ids[i] in RowsById(rows) && RowCrosses(RowsById(rows)[ids[i]], nodes[i], nodes[i + 1])
  }

  method PathConnects(nodes: seq<string>, ids: seq<string>, rows: seq<EdgeRow>) returns (ok: bool)
    ensures ok <==> Connects(nodes, ids, rows)
  {
    if ids == [] || |nodes| != |ids| + 1 {
      return false;
    }
    var edges := RowsById(rows);
    for index := 0 to |ids|
      invariant forall i :: 0 <= i < index ==> ids[i] in edges && RowCrosses(edges[ids[i]], nodes[i], nodes[i + 1])
    {
      if ids[index] !in edges {
        return false;
      }
      var edge := edges[ids[index]];
      var start, end := Text(edge.fromNode), Text(edge.toNode);
      var pathStart, pathEnd := nodes[index], nodes[index + 1];
      var forward := (start, end) == (Some(pathStart), Some(pathEnd));
      var backward := edge.bidirectional && (end, start) == (Some(pathStart), Some(pathEnd));
      if !forward && !backward {
        return false;
      }
    }
    return true;
  }

  ghost predicate EdgesOpen(ids: seq<string>, rows: seq<EdgeRow>) {
    && ids != []
    && forall i :: 0 <= i < |ids| ==>
         ids[i] in RowsById(rows) && RowsById(rows)[ids[i]].status.Some?
           && RowsById(rows)[ids[i]].status.value in ALLOWED_STATUSES
  }

  ghost predicate Disjoint(ids: seq<string>, blocked: seq<string>) {
    forall i :: 0 <= i < |ids| ==> ids[i] !in blocked
  }

  ghost predicate Named(names: seq<string>) {
    forall i :: 0 <= i < |names| ==> names[i] != ""
  }

  lemma {:induction false} RowsMatchNet(edges: seq<RoadEdge>)
    ensures forall id :: id in RowsById(RowsOf(edges)) <==> id in ById(edges) && id != ""
    ensures forall id :: id in RowsById(RowsOf(edges)) ==> RowsById(RowsOf(edges))[id] == EdgeToRow(ById(edges)[id])
  {
    if edges != [] {
      RowsMatchNet(edges[..|edges| - 1]);
      var rows := RowsOf(edges);
      assert rows[..|rows| - 1] == RowsOf(edges[..|edges| - 1]);
    }
  }

  /** The checker accepts exactly the non-empty walks of the network whose nodes and edges have names. */
  lemma ConnectsExactlyWalks(edges: seq<RoadEdge>, nodes: seq<string>, ids: seq<string>)
    ensures Connects(nodes, ids, RowsOf(edges)) <==>
              ids != [] && IsWalk(ById(edges), nodes, ids) && Named(nodes) && Named(ids)
  {
    RowsMatchNet(edges);
    var rows, net := RowsById(RowsOf(edges)), ById(edges);
    if Connects(nodes, ids, RowsOf(edges)) {
      forall i | 0 <= i < |ids|
        ensures ids[i] in net && Crosses(net[ids[i]], nodes[i], nodes[i + 1]) && ids[i] != "" && nodes[i] != ""
      {
        assert RowCrosses(rows[ids[i]], nodes[i], nodes[i + 1]);
      }
      var last := |ids| - 1;
      assert RowCrosses(rows[ids[last]], nodes[last], nodes[last + 1]);
      assert Named(nodes);
    }
    if ids != [] && IsWalk(net, nodes, ids) && Named(nodes) && Named(ids) {
      forall i | 0 <= i < |ids| ensures ids[i] in rows && RowCrosses(rows[ids[i]], nodes[i], nodes[i + 1]) {
        assert ids[i] in net && ids[i] != "";
      }
    }
  }

  lemma WalkBetweenDistinct(net: Net, u: NodeId, v: NodeId, nodes: seq<NodeId>, ids: seq<EdgeId>)
    requires WalkFromTo(net, u, v, nodes, ids) && u != v
    ensures ids != []
  {
  }

  /** The statuses of a path's edges are the ones the audit allows. */
  ghost predicate StatusesAllowed(edges: seq<RoadEdge>, ids: seq<EdgeId>) {
    forall i :: 0 <= i < |ids| ==> ids[i] in ById(edges) && ById(edges)[ids[i]].status in ALLOWED_STATUSES
  }

  lemma OpenIffStatusesAllowed(edges: seq<RoadEdge>, ids: seq<EdgeId>)
    requires ids != [] && Named(ids)
    ensures EdgesOpen(ids, RowsOf(edges)) <==> StatusesAllowed(edges, ids)
  {
    RowsMatchNet(edges);
  }

  /** Finder and checker agree: a path found with the blocked ids excluded is connected and avoids them,
      and passes the open-edge check exactly when its edges carry an allowed status. */
  lemma FoundPathPassesAudit(s: Snapshot, t: Trip, blocked: seq<string>)
    requires Searchable(s, t) && Find(s, t).Some? && t.start != t.goal
    requires forall id :: id in blocked ==> id in t.excluded
    ensures var p := Find(s, t).value;
      && (Connects(p.nodeIds, p.edgeIds, RowsOf(s.edges)) <==> Named(p.nodeIds) && Named(p.edgeIds))
      && Disjoint(p.edgeIds, blocked)
      && (Named(p.edgeIds) ==> (EdgesOpen(p.edgeIds, RowsOf(s.edges)) <==> StatusesAllowed(s.edges, p.edgeIds)))
  {
    var p, net, all := Find(s, t).value, NetFor(s, t), ById(s.edges);
    FoundPathIsCheapest(s, t);
    WalkBetweenDistinct(net, t.start, t.goal, p.nodeIds, p.edgeIds);
    UsableNetMembers(s, t.vehicleWeight, t.excluded);
    WalkInLargerNet(net, all, p.nodeIds, p.edgeIds, t.objective);
    ConnectsExactlyWalks(s.edges, p.nodeIds, p.edgeIds);
    if Named(p.edgeIds) { OpenIffStatusesAllowed(s.edges, p.edgeIds); }
    UsableWalkAvoids(s, t, p.nodeIds, p.edgeIds, blocked);
  }

  lemma UsableWalkAvoids(s: Snapshot, t: Trip, nodes: seq<NodeId>, ids: seq<EdgeId>, blocked: seq<string>)
    requires UniqueIds(s.edges) && IsWalk(NetFor(s, t), nodes, ids) && forall id :: id in blocked ==> id in t.excluded
    ensures Disjoint(ids, blocked)
  {
    UsableNetMembers(s, t.vehicleWeight, t.excluded);
    ByIdMembers(s.edges);
  }

  lemma UsableStep(s: Snapshot, t: Trip, nodes: seq<NodeId>, ids: seq<EdgeId>, i: nat)
    requires UniqueIds(s.edges) && IsWalk(NetFor(s, t), nodes, ids) && i < |ids|
    requires forall e :: e in s.edges ==> e.edgeId != "" && e.fromNode != "" && e.toNode != ""
    requires forall e :: e in s.edges ==> e.status in ALLOWED_STATUSES + {"BLOCKED"}
    ensures ids[i] != "" && nodes[i] != "" && nodes[i + 1] != ""
    ensures ids[i] in ById(s.edges) && ById(s.edges)[ids[i]].status in ALLOWED_STATUSES
  {
    UsableNetMembers(s, t.vehicleWeight, t.excluded);
    ByIdMembers(s.edges);
    assert ids[i] in NetFor(s, t) && Crosses(NetFor(s, t)[ids[i]], nodes[i], nodes[i + 1]);
    assert ById(s.edges)[ids[i]] in s.edges;
  }

  lemma UsableWalkIsOpen(s: Snapshot, t: Trip, nodes: seq<NodeId>, ids: seq<EdgeId>)
    requires UniqueIds(s.edges) && IsWalk(NetFor(s, t), nodes, ids) && ids != []
    requires forall e :: e in s.edges ==> e.edgeId != "" && e.fromNode != "" && e.toNode != ""
    requires forall e :: e in s.edges ==> e.status in ALLOWED_STATUSES + {"BLOCKED"}
    ensures Named(nodes) && Named(ids) && StatusesAllowed(s.edges, ids)
  {
    forall i | 0 <= i < |nodes| ensures nodes[i] != "" {
      UsableStep(s, t, nodes, ids, if i < |ids| then i else i - 1);
    }
    forall i | 0 <= i < |ids|
      ensures ids[i] != "" && ids[i] in ById(s.edges) && ById(s.edges)[ids[i]].status in ALLOWED_STATUSES
    {
      UsableStep(s, t, nodes, ids, i);
    }
  }

  /** Named edges between named nodes, with the documented statuses. */
  ghost predicate Documented(s: Snapshot) {
    && (forall e :: e in s.edges ==> e.edgeId != "" && e.fromNode != "" && e.toNode != "")
    && (forall e :: e in s.edges ==> e.status in ALLOWED_STATUSES + {"BLOCKED"})
  }

  /** With only the documented statuses in a network of named nodes and edges, such a path passes all three checks. */
  lemma FoundPathIsOpen(s: Snapshot, t: Trip, blocked: seq<string>)
    requires Searchable(s, t) && Find(s, t).Some? && t.start != t.goal && Documented(s)
    requires forall id :: id in blocked ==> id in t.excluded
    ensures var p := Find(s, t).value;
      Connects(p.nodeIds, p.edgeIds, RowsOf(s.edges)) && Disjoint(p.edgeIds, blocked)
        && EdgesOpen(p.edgeIds, RowsOf(s.edges))
  {
    var p := Find(s, t).value;
    FoundPathPassesAudit(s, t, blocked);
    FoundPathIsCheapest(s, t);
    WalkBetweenDistinct(NetFor(s, t), t.start, t.goal, p.nodeIds, p.edgeIds);
    UsableWalkIsOpen(s, t, p.nodeIds, p.edgeIds);
  }

  // ----- the verdict

  datatype CandidateState = CandidateState(
    vehicleId: Option<string>, driverId: Option<string>, vehicleStatus: Option<string>, driverStatus: Option<string>,
    remaining: Option<string>, capability: Option<string>, eligible: bool, reasons: seq<string>)

  datatype DispatchState = DispatchState(
    executed: bool, targetRoute: Option<string>, originalVehicle: Option<string>,
    targetVehicle: Option<string>, targetDriver: Option<string>)

  /** The evidence about the dispatched vehicle. */
  datatype Assignment = Assignment(
    dispatch: DispatchState, vehicleId: Option<string>, selectedVehicle: Option<string>, selectedDriver: Option<string>,
    candidates: seq<CandidateState>, cargoWeight: Option<string>, cargoType: Option<string>)

  datatype Evidence = Evidence(
    decision: Option<string>, requiresReview: bool, errorCode: Option<string>,
    identifiedIssue: Option<string>, anomalyType: Option<string>, assignment: Assignment,
    blocked: seq<string>, pathNodes: seq<string>, pathEdges: seq<string>, roadEdges: seq<EdgeRow>,
    recommendedRoute: Option<string>, routeId: Option<string>,
    memoryAdopted: bool, adoptedMemory: Option<string>, memories: seq<string>,
    fallbackUsed: bool, fallbackReason: Option<string>)

  datatype Checks = Checks(
    routeConsistency: bool, memoryConsistency: bool, fallbackConsistency: bool, dispatchExecution: bool,
    vehicleAssignment: bool, capacityConstraint: bool, routeConnectivity: bool, blockedEdgeExclusion: bool)

  datatype AuditStatus = Approved | Rejected | ReviewRequired

  /** The recorded explanation, one per message of the service. */
  datatype Reason =
    | NeedsReview | VehicleInconsistent | CapacityInvalid | PathDisconnected | PathBlocked
    | RouteInconsistent(fault: RouteFault) | MemoryAbsent | FallbackUnexplained | ChecksPassed

  datatype RouteFault = UnsafeRouteExecuted | RouteMismatch | KeptRouteMismatch

  datatype Verdict = Verdict(status: AuditStatus, reason: Reason, requiresReview: bool, checks: Checks)

  const REVIEW_ERRORS: set<string> := {"DISPATCH_CONFLICT", "DISPATCH_VERSION_CONFLICT", "VEHICLE_RESERVATION_CONFLICT"}

  predicate FailedBefore(ev: Evidence) {
    ev.errorCode.Some? && ev.errorCode.value in REVIEW_ERRORS
  }

  predicate AsksForReview(ev: Evidence) {
    Text(ev.decision) == Some("MANUAL_REVIEW") || ev.requiresReview || FailedBefore(ev)
  }

  function Issue(ev: Evidence): Option<string> {
    if Text(ev.identifiedIssue).Some? then ev.identifiedIssue else Text(ev.anomalyType)
  }

  /** The first candidate carrying the given vehicle id. */
  function CandidateFor(cs: seq<CandidateState>, id: Option<string>): Option<CandidateState> {
    if id.None? || cs == [] then None
    else if Text(cs[0].vehicleId) == id then Some(cs[0])
    else CandidateFor(cs[1..], id)
  }

  function OriginalVehicle(a: Assignment): Option<string> {
    if Text(a.dispatch.originalVehicle).Some? then a.dispatch.originalVehicle else Text(a.vehicleId)
  }

  predicate VehicleAssigned(a: Assignment) {
    var target := Text(a.dispatch.targetVehicle);
    var candidate := CandidateFor(a.candidates, target);
    && OriginalVehicle(a).Some? && target.Some? && target != OriginalVehicle(a)
    && candidate.Some?
    && Text(a.selectedVehicle) == target
    && Text(candidate.value.driverId) == Text(a.selectedDriver) == Text(a.dispatch.targetDriver)
    && candidate.value.vehicleStatus == Some("AVAILABLE")
    && (candidate.value.driverStatus == Some("ON_DUTY") || candidate.value.driverStatus == Some("AVAILABLE"))
    && candidate.value.eligible && candidate.value.reasons == []
  }

  function ParseText(v: Option<string>): Option<Decimal> {
    match v case None => None case Some(s) => Parse(s)
  }

  predicate CapacityHolds(a: Assignment) {
    var candidate := CandidateFor(a.candidates, Text(a.dispatch.targetVehicle));
    var cargo := ParseText(a.cargoWeight);
    var remaining := if candidate.None? then None else ParseText(candidate.value.remaining);
    && cargo.Some? && remaining.Some? && remaining.value.Value() >= cargo.value.Value()
    && (Text(a.cargoType) != Some("COLD_CHAIN")
      || (candidate.Some? && candidate.value.capability == Some("COLD_CHAIN")))
  }

  predicate PathMatters(ev: Evidence) {
    Issue(ev) == Some("ROAD_BLOCKED") || ev.blocked != []
  }

  predicate RouteConsistent(ev: Evidence) {
    match Text(ev.decision)
    case Some(d) =>
      if d == "NO_SAFE_ROUTE" then !ev.assignment.dispatch.executed
      else if d == "REROUTE" then
        Text(ev.recommendedRoute).Some? && ev.assignment.dispatch.executed
          && Text(ev.assignment.dispatch.targetRoute) == ev.recommendedRoute
      else if d == "KEEP_ROUTE" then ev.assignment.dispatch.executed
        && Text(ev.assignment.dispatch.targetRoute) == Text(ev.routeId)
      else true
    case None => true
  }

  predicate MemoryConsistent(ev: Evidence) {
    ev.memoryAdopted ==> Text(ev.adoptedMemory).Some? && ev.adoptedMemory.value in ev.memories
  }

  predicate FallbackConsistent(ev: Evidence) {
    ev.fallbackUsed ==> Text(ev.fallbackReason).Some?
  }

  ghost predicate PathSound(ev: Evidence) {
    && Connects(ev.pathNodes, ev.pathEdges, ev.roadEdges)
    && Disjoint(ev.pathEdges, ev.blocked) && EdgesOpen(ev.pathEdges, ev.roadEdges)
  }

  /** Everything the audit stands for, as one condition. */
  ghost predicate Sound(ev: Evidence) {
    && (Issue(ev) == Some("VEHICLE_BREAKDOWN") ==> VehicleAssigned(ev.assignment) && CapacityHolds(ev.assignment))
    && (PathMatters(ev) ==> PathSound(ev))
    && RouteConsistent(ev) && MemoryConsistent(ev) && FallbackConsistent(ev)
  }

  /** What the audit answers on a piece of evidence. */
  ghost function VerdictOn(ev: Evidence): AuditStatus {
    if AsksForReview(ev) then ReviewRequired else if Sound(ev) then Approved else Rejected
  }

  method PathAvoidsBlocked(ev: Evidence) returns (ok: bool)
    ensures ok <==> Disjoint(ev.pathEdges, ev.blocked) && EdgesOpen(ev.pathEdges, ev.roadEdges)
  {
    var edges := RowsById(ev.roadEdges);
    for i := 0 to |ev.pathEdges|
      invariant forall j :: 0 <= j < i ==> ev.pathEdges[j] !in ev.blocked
      invariant forall j :: 0 <= j < i ==>
                  ev.pathEdges[j] in edges && edges[ev.pathEdges[j]].status.Some?
                  && edges[ev.pathEdges[j]].status.value in ALLOWED_STATUSES
    {
      var id := ev.pathEdges[i];
      if id in ev.blocked || id !in edges || edges[id].status.None? || edges[id].status.value !in ALLOWED_STATUSES {
        return false;
      }
    }
    return ev.pathEdges != [];
  }

  /** The outcomes of the individual checks, before the verdict is drawn. */
  datatype Findings = Findings(
    review: bool, breakdown: bool, vehicle: bool, capacity: bool, pathMatters: bool, connected: bool, avoids: bool,
    route: bool, routeFault: RouteFault, memory: bool, fallback: bool, executed: bool)

  predicate VehicleClean(f: Findings) {
    f.breakdown ==> f.vehicle && f.capacity
  }

  predicate PathClean(f: Findings) {
    f.pathMatters ==> f.connected && f.avoids
  }

  predicate Clean(f: Findings) {
    VehicleClean(f) && PathClean(f) && f.route && f.memory && f.fallback
  }

  /** The failing check a rejection names; everything checked before it holds. */
  predicate Explains(f: Findings, r: Reason) {
    match r
    case VehicleInconsistent => f.breakdown && !f.vehicle
    case CapacityInvalid => f.breakdown && f.vehicle && !f.capacity
    case PathDisconnected => VehicleClean(f) && f.pathMatters && !f.connected
    case PathBlocked => VehicleClean(f) && f.pathMatters && f.connected && !f.avoids
    case RouteInconsistent(fault) => VehicleClean(f) && PathClean(f) && !f.route && fault == f.routeFault
    case MemoryAbsent => VehicleClean(f) && PathClean(f) && f.route && !f.memory
    case FallbackUnexplained => VehicleClean(f) && PathClean(f) && f.route && f.memory && !f.fallback
    case _ => false
  }

  /** A check reported as failed did fail. */
  predicate Truthful(f: Findings, c: Checks) {
    && (!c.vehicleAssignment ==> f.breakdown && !f.vehicle) && (!c.capacityConstraint ==> f.breakdown && !f.capacity)
    && (!c.routeConnectivity ==> f.pathMatters && !f.connected)
      && (!c.blockedEdgeExclusion ==> f.pathMatters && !f.avoids)
    && (!c.routeConsistency ==> !f.route) && (!c.memoryConsistency ==> !f.memory)
      && (!c.fallbackConsistency ==> !f.fallback)
  }

  predicate AllHold(c: Checks) {
    c.routeConsistency && c.memoryConsistency && c.fallbackConsistency && c.vehicleAssignment && c.capacityConstraint
    && c.routeConnectivity && c.blockedEdgeExclusion
  }

  /** The chain of early returns: the first failing check decides. */
  method Judge(f: Findings) returns (v: Verdict)
    ensures v.status == if f.review then ReviewRequired else if Clean(f) then Approved else Rejected
    ensures v.requiresReview <==> v.status != Approved
    ensures !f.review && f.breakdown ==>
            v.checks.vehicleAssignment == f.vehicle && v.checks.capacityConstraint == f.capacity
    ensures v.checks.dispatchExecution == f.executed
    ensures v.status == Rejected ==> Explains(f, v.reason)
    ensures Truthful(f, v.checks) && (v.status == Rejected <==> !AllHold(v.checks))
  {
    var checks := Checks(true, true, true, f.executed, true, true, true, true);
    if f.review {
      return Verdict(ReviewRequired, NeedsReview, true, checks);
    }
    if f.breakdown {
      checks := checks.(vehicleAssignment := f.vehicle, capacityConstraint := f.capacity);
      if !f.vehicle {
        return Verdict(Rejected, VehicleInconsistent, true, checks);
      }
      if !f.capacity {
        return Verdict(Rejected, CapacityInvalid, true, checks);
      }
    }
    if f.pathMatters {
      checks := checks.(routeConnectivity := f.connected, blockedEdgeExclusion := f.avoids);
      if !f.connected {
        return Verdict(Rejected, PathDisconnected, true, checks);
      }
      if !f.avoids {
        return Verdict(Rejected, PathBlocked, true, checks);
      }
    }
    checks := checks.(routeConsistency := f.route);
    if !f.route {
      return Verdict(Rejected, RouteInconsistent(f.routeFault), true, checks);
    }
    checks := checks.(memoryConsistency := f.memory);
    if !f.memory {
      return Verdict(Rejected, MemoryAbsent, true, checks);
    }
    checks := checks.(fallbackConsistency := f.fallback);
    if !f.fallback {
      return Verdict(Rejected, FallbackUnexplained, true, checks);
    }
    return Verdict(Approved, ChecksPassed, false, checks);
  }

  function RouteFaultOf(ev: Evidence): RouteFault {
    if ev.decision == Some("NO_SAFE_ROUTE") then UnsafeRouteExecuted
    else if ev.decision == Some("REROUTE") then RouteMismatch
    else KeptRouteMismatch
  }

  /** What the checks find on a piece of evidence. */
  ghost function FindingsOf(ev: Evidence): Findings {
    Findings(
      AsksForReview(ev), Issue(ev) == Some("VEHICLE_BREAKDOWN"), VehicleAssigned(ev.assignment),
      CapacityHolds(ev.assignment), PathMatters(ev), Connects(ev.pathNodes, ev.pathEdges, ev.roadEdges),
      Disjoint(ev.pathEdges, ev.blocked) && EdgesOpen(ev.pathEdges, ev.roadEdges),
      RouteConsistent(ev), RouteFaultOf(ev), MemoryConsistent(ev), FallbackConsistent(ev),
      ev.assignment.dispatch.executed)
  }

  /** Approved exactly when no review is asked for and every check that applies holds. */
  method Evaluate(ev: Evidence) returns (v: Verdict)
    ensures v.status == VerdictOn(ev)
    ensures v.status == Rejected ==> Explains(FindingsOf(ev), v.reason)
    ensures v.status == Rejected && v.reason.RouteInconsistent? ==>
              && (v.reason.fault == UnsafeRouteExecuted <==> ev.decision == Some("NO_SAFE_ROUTE"))
              && (v.reason.fault == RouteMismatch <==> ev.decision == Some("REROUTE"))
    ensures Truthful(FindingsOf(ev), v.checks) && (v.status == Rejected <==> !AllHold(v.checks))
    ensures v.requiresReview <==> v.status != Approved
    ensures !AsksForReview(ev) && Issue(ev) == Some("VEHICLE_BREAKDOWN") ==>
              v.checks.vehicleAssignment == VehicleAssigned(ev.assignment)
                && v.checks.capacityConstraint == CapacityHolds(ev.assignment)
    ensures v.checks.dispatchExecution == ev.assignment.dispatch.executed
  {
    var connected := PathConnects(ev.pathNodes, ev.pathEdges, ev.roadEdges);
    var avoids := PathAvoidsBlocked(ev);
    var f := Findings(
      AsksForReview(ev), Issue(ev) == Some("VEHICLE_BREAKDOWN"), VehicleAssigned(ev.assignment),
        CapacityHolds(ev.assignment),
      PathMatters(ev), connected, avoids, RouteConsistent(ev), RouteFaultOf(ev),
      MemoryConsistent(ev), FallbackConsistent(ev), ev.assignment.dispatch.executed);
    v := Judge(f);
  }
}
