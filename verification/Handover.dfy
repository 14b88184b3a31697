/** From allocation through dispatch to audit: the workflow state that carries a
    replacement vehicle from the capacity node to the audit node. */
module Handover {
  import opened Options
  import opened Decimals
  import opened RoadNetwork
  import opened PathFinder
  import Fleet
  import Reservation
  import Audit

  /** The part of the workflow state that names the load and the broken-down vehicle. */
  datatype Breakdown = Breakdown(
    vehicleId: Option<string>, originalWeightKnown: bool, cargoWeight: Option<string>, cargoType: Option<string>,
    incidentNode: NodeId, destination: Option<NodeId>)

  /** The allocation request built by the capacity node. */
  function RequestOf(b: Breakdown, cargo: Decimal): Fleet.Request {
    Fleet.Request(
      if b.vehicleId.Some? then b.vehicleId.value else "", b.incidentNode, cargo,
      if b.cargoType.Some? then b.cargoType.value else "GENERAL", b.destination)
  }

  /** _candidate_to_state: decimals become text. */
  function CandidateToState(c: Fleet.Candidate): Audit.CandidateState {
    Audit.CandidateState(Some(c.vehicleId), c.driverId, Some(c.vehicleStatus), c.driverStatus,
                         Some(Print(c.remainingLoad)), Some(c.capability), c.eligible, c.reasons)
  }

  function CandidateStates(cs: seq<Fleet.Candidate>): (r: seq<Audit.CandidateState>)
    ensures |r| == |cs| && forall i :: 0 <= i < |cs| ==> r[i] == CandidateToState(cs[i])
  {
    if cs == [] then [] else [CandidateToState(cs[0])] + CandidateStates(cs[1..])
  }

  function RefOf(c: Audit.CandidateState): Reservation.CandidateRef {
    Reservation.CandidateRef(c.vehicleId, c.driverId, c.eligible)
  }

  function Refs(cs: seq<Audit.CandidateState>): (r: seq<Reservation.CandidateRef>)
    ensures |r| == |cs| && forall i :: 0 <= i < |cs| ==> r[i] == RefOf(cs[i])
  {
    if cs == [] then [] else [RefOf(cs[0])] + Refs(cs[1..])
  }

  /** The call the dispatch node makes for a breakdown. */
  ghost predicate IsDispatchCall(b: Breakdown, states: seq<Audit.CandidateState>, call: Reservation.Call) {
    && call.candidates == Refs(states)
    && call.originalVehicle == if b.originalWeightKnown then b.vehicleId else None
  }

  /** What the audit node sees after the dispatch node has patched the state with the result:
      the selected vehicle and driver are the ones actually reserved. */
  function AssignmentAfter(b: Breakdown, states: seq<Audit.CandidateState>, r: Reservation.DispatchResult,
                           selected: (Option<string>, Option<string>)): Audit.Assignment
  {
    Audit.Assignment(
      Audit.DispatchState(r.executed, r.targetRoute, r.originalVehicle, r.targetVehicle, r.targetDriver),
      b.vehicleId,
      if r.targetVehicle.Some? then r.targetVehicle else selected.0,
      if r.targetDriver.Some? then r.targetDriver else selected.1,
      states, b.cargoWeight, b.cargoType)
  }

  // ----- candidates

  /** Looking a vehicle up in the state finds that vehicle's own entry. */
  lemma {:induction false} LookupFinds(cs: seq<Fleet.Candidate>, i: nat)
    requires i < |cs| && cs[i].vehicleId != ""
    requires forall j :: 0 <= j < i ==> cs[j].vehicleId != cs[i].vehicleId
    ensures Audit.CandidateFor(CandidateStates(cs), Some(cs[i].vehicleId)) == Some(CandidateToState(cs[i]))
  {
    var states := CandidateStates(cs);
    assert states[0] == CandidateToState(cs[0]);
    if i > 0 {
      assert cs[0].vehicleId != cs[i].vehicleId;
      LookupFinds(cs[1..], i - 1);
      assert states[1..] == CandidateStates(cs[1..]);
    }
  }

  /** A call that reserves a vehicle reserves one of its eligible candidates. */
  lemma AttemptIsEligible(cs: seq<Fleet.Candidate>, call: Reservation.Call, k: nat) returns (i: nat)
    requires call.candidates == Refs(CandidateStates(cs)) && k < |Reservation.Attempts(call)|
    requires Reservation.VehicleOf(Reservation.Attempts(call)[k]).Some?
    ensures i < |cs| && cs[i].eligible && cs[i].vehicleId != ""
    ensures Reservation.VehicleOf(Reservation.Attempts(call)[k]) == Some(cs[i].vehicleId)
    ensures Reservation.DriverOf(Reservation.Attempts(call)[k]) == Text(cs[i].driverId)
  {
    var c := Reservation.Attempts(call)[k].value;
    assert c in Reservation.Eligible(call.candidates);
    i :| 0 <= i < |call.candidates| && call.candidates[i] == c;
    assert c == RefOf(CandidateStates(cs)[i]);
  }

  /** What a candidate list records about its eligible vehicles. */
  ghost predicate Recorded(cs: seq<Fleet.Candidate>, r: Fleet.Request) {
    forall c :: c in cs && c.eligible ==> Fleet.OnRecord(c, r)
  }

  ghost predicate UniqueEntries(cs: seq<Fleet.Candidate>) {
    forall i, j :: 0 <= i < j < |cs| ==> cs[i].vehicleId != cs[j].vehicleId
  }

  /** An allocation lists each vehicle once and records its eligible ones truthfully. */
  lemma AllocationRecords(s: Snapshot, fleet: seq<Fleet.Vehicle>, r: Fleet.Request)
    requires Fleet.Routable(s) && Fleet.UniqueVehicles(fleet)
    ensures Recorded(Fleet.AllocationOf(s, fleet, r).candidates, r)
    ensures UniqueEntries(Fleet.AllocationOf(s, fleet, r).candidates)
  {
    var cs := Fleet.AllocationOf(s, fleet, r).candidates;
    Fleet.AllocationIdentified(s, fleet, r);
    forall c | c in cs && c.eligible ensures Fleet.OnRecord(c, r) {
      var v := Fleet.AllocatedIsEvaluated(s, fleet, r, c);
      Fleet.EligibleRecord(s, v, r);
    }
  }

  // ----- end to end

  lemma RecordPassesCapacity(ev: Audit.Assignment, c: Fleet.Candidate, cargo: Decimal)
    requires Audit.CandidateFor(ev.candidates, Text(ev.dispatch.targetVehicle)) == Some(CandidateToState(c))
    requires ev.cargoWeight.Some? && Parse(ev.cargoWeight.value) == Some(cargo)
    requires c.remainingLoad.Value() >= cargo.Value()
    requires ev.cargoType == Some("COLD_CHAIN") ==> c.capability == "COLD_CHAIN"
    ensures Audit.CapacityHolds(ev)
  {
    PrintParse(c.remainingLoad);
  }

  lemma RecordPassesAssignment(ev: Audit.Assignment, c: Fleet.Candidate)
    requires Audit.CandidateFor(ev.candidates, Text(ev.dispatch.targetVehicle)) == Some(CandidateToState(c))
    requires ev.dispatch.targetVehicle == ev.selectedVehicle == Some(c.vehicleId) && c.vehicleId != ""
    requires ev.dispatch.targetDriver == ev.selectedDriver && Text(ev.dispatch.targetDriver) == Text(c.driverId)
    requires c.vehicleStatus == "AVAILABLE" && c.driverStatus == Some("ON_DUTY") && c.eligible && c.reasons == []
    requires Audit.OriginalVehicle(ev) == Text(ev.vehicleId) && ev.vehicleId != Some(c.vehicleId)
    ensures Audit.VehicleAssigned(ev) <==> Text(ev.vehicleId).Some?
  {
  }

  /** Whichever candidate a call reserves, the audit finds the capacity check satisfied, and the
      assignment check satisfied exactly when the broken-down vehicle is known. */
  lemma ReservedCandidatePassesAudit(
    cs: seq<Fleet.Candidate>, b: Breakdown, cargo: Decimal, call: Reservation.Call, k: nat,
    row: Reservation.DispatchRow, selected: (Option<string>, Option<string>))
    requires Recorded(cs, RequestOf(b, cargo)) && UniqueEntries(cs)
    requires b.cargoWeight.Some? && Parse(b.cargoWeight.value) == Some(cargo)
    requires IsDispatchCall(b, CandidateStates(cs), call) && k < |Reservation.Attempts(call)|
    requires row == Reservation.RowFor(call, Reservation.Attempts(call)[k], row.id, row.dispatchNo)
    requires row.targetVehicle.Some? && row.targetDriver.Some?
    ensures var seen := AssignmentAfter(b, CandidateStates(cs), Reservation.FreshResult(call, row), selected);
      Audit.CapacityHolds(seen) && (Audit.VehicleAssigned(seen) <==> Text(b.vehicleId).Some?)
  {
    var i := AttemptIsEligible(cs, call, k);
    LookupFinds(cs, i);
    var r := Reservation.FreshResult(call, row);
    EntryPassesCapacity(cs, i, b, cargo, r, selected);
    EntryPassesAssignment(cs, i, b, cargo, r, selected);
  }

  /** The result `r` names entry `i` of the list, and looking it up finds that entry. */
  ghost predicate Reserved(cs: seq<Fleet.Candidate>, i: nat, r: Reservation.DispatchResult) {
    && i < |cs| && cs[i].eligible && cs[i].vehicleId != ""
    && r.targetVehicle == Some(cs[i].vehicleId) && r.targetDriver.Some? && r.targetDriver == Text(cs[i].driverId)
    && Audit.CandidateFor(CandidateStates(cs), Some(cs[i].vehicleId)) == Some(CandidateToState(cs[i]))
  }

  lemma EntryPassesCapacity(
    cs: seq<Fleet.Candidate>, i: nat, b: Breakdown, cargo: Decimal, r: Reservation.DispatchResult,
    selected: (Option<string>, Option<string>))
    requires Recorded(cs, RequestOf(b, cargo)) && Reserved(cs, i, r)
    requires b.cargoWeight.Some? && Parse(b.cargoWeight.value) == Some(cargo)
    ensures Audit.CapacityHolds(AssignmentAfter(b, CandidateStates(cs), r, selected))
  {
    assert cs[i] in cs;
    RecordPassesCapacity(AssignmentAfter(b, CandidateStates(cs), r, selected), cs[i], cargo);
  }

  lemma EntryPassesAssignment(
    cs: seq<Fleet.Candidate>, i: nat, b: Breakdown, cargo: Decimal, r: Reservation.DispatchResult,
    selected: (Option<string>, Option<string>))
    requires Recorded(cs, RequestOf(b, cargo)) && Reserved(cs, i, r)
    requires r.originalVehicle == if b.originalWeightKnown then b.vehicleId else None
    ensures Audit.VehicleAssigned(AssignmentAfter(b, CandidateStates(cs), r, selected)) <==> Text(b.vehicleId).Some?
  {
    assert cs[i] in cs;
    RecordPassesAssignment(AssignmentAfter(b, CandidateStates(cs), r, selected), cs[i]);
  }

  /** The candidates the capacity node hands on for a breakdown. */
  ghost function Offered(s: Snapshot, fleet: seq<Fleet.Vehicle>, b: Breakdown, cargo: Decimal): seq<Fleet.Candidate>
    requires Fleet.Routable(s)
  {
    Fleet.AllocationOf(s, fleet, RequestOf(b, cargo)).candidates
  }

  /** In every interleaving of execute calls: when the call made for a breakdown creates a dispatch with a
      target vehicle, the audit's capacity check holds on the resulting state, and its vehicle-assignment
      check holds exactly when the broken-down vehicle is known. */
  lemma CreatedDispatchPassesAudit(
    s: Snapshot, fleet: seq<Fleet.Vehicle>, b: Breakdown, cargo: Decimal,
    start: Reservation.World, actions: seq<Reservation.Action>, i: nat, c: Reservation.CallId,
    selected: (Option<string>, Option<string>))
    requires Fleet.Routable(s) && Fleet.UniqueVehicles(fleet)
    requires b.cargoWeight.Some? && Parse(b.cargoWeight.value) == Some(cargo)
    requires Reservation.Initial(start) && c in start.calls
    requires IsDispatchCall(b, CandidateStates(Offered(s, fleet, b, cargo)), start.calls[c])
    requires var w := Reservation.Run(start, actions);
      i < |w.store.dispatches| && i < |w.creators| && w.creators[i] == c && w.store.dispatches[i].targetVehicle.Some?
    ensures c in Reservation.Run(start, actions).phases && Reservation.Run(start, actions).phases[c].Returned?
    ensures var result := Reservation.Run(start, actions).phases[c].result;
      var seen := AssignmentAfter(b, CandidateStates(Offered(s, fleet, b, cargo)), result, selected);
      Audit.CapacityHolds(seen) && (Audit.VehicleAssigned(seen) <==> Text(b.vehicleId).Some?)
  {
    var row, call := Reservation.Run(start, actions).store.dispatches[i], start.calls[c];
    Reservation.DispatchComesFromItsCreator(start, actions, i);
    var k :| 0 <= k < |Reservation.Attempts(call)|
             && row == Reservation.RowFor(call, Reservation.Attempts(call)[k], row.id, row.dispatchNo);
    AllocationRecords(s, fleet, RequestOf(b, cargo));
    ReservedCandidatePassesAudit(Offered(s, fleet, b, cargo), b, cargo, call, k, row, selected);
  }

  // ----- a breakdown nobody disturbs

  /** The audit accepts the capacity of a result, and its assignment exactly when the broken-down vehicle is known. */
  ghost predicate AuditAgrees(b: Breakdown, states: seq<Audit.CandidateState>, r: Reservation.DispatchResult) {
    forall selected ::
      && Audit.CapacityHolds(AssignmentAfter(b, states, r, selected))
      && (Audit.VehicleAssigned(AssignmentAfter(b, states, r, selected)) <==> Text(b.vehicleId).Some?)
  }

  lemma {:induction false} FirstAttempt(cs: seq<Fleet.Candidate>, call: Reservation.Call)
    requires call.candidates == Refs(CandidateStates(cs)) && cs != [] && cs[0].eligible
    ensures Reservation.Attempts(call)[0] == Some(RefOf(CandidateToState(cs[0])))
  {
    assert call.candidates[0] == RefOf(CandidateStates(cs)[0]);
  }

  /** An eligible first candidate with ids, still AVAILABLE, is reserved by a call that nobody disturbs. */
  lemma FirstCandidateIsReserved(
    cs: seq<Fleet.Candidate>, b: Breakdown, cargo: Decimal, store: Reservation.Store, call: Reservation.Call,
    no: string)
    returns (actions: seq<Reservation.Action>, result: Reservation.DispatchResult)
    requires Recorded(cs, RequestOf(b, cargo)) && UniqueEntries(cs) && cs != [] && cs[0].eligible
    requires cs[0].vehicleId != "" && Text(cs[0].driverId).Some?
    requires b.cargoWeight.Some? && Parse(b.cargoWeight.value) == Some(cargo)
    requires IsDispatchCall(b, CandidateStates(cs), call)
    requires call.task in store.tasks && store.dispatches == [] && Reservation.IsAvailable(store, cs[0].vehicleId)
    ensures Reservation.Initial(Reservation.Alone(store, call, Reservation.Attempting(0)))
    ensures var w := Reservation.Run(Reservation.Alone(store, call, Reservation.Attempting(0)), actions);
      w.creators == [0] && |w.store.dispatches| == 1 && w.store.dispatches[0].targetVehicle == Some(cs[0].vehicleId)
      && w.phases == map[0 := Reservation.Returned(result)]
    ensures AuditAgrees(b, CandidateStates(cs), result)
  {
    FirstAttempt(cs, call);
    Reservation.AloneIsInitial(store, call);
    actions := Reservation.LoneCallReserves(store, call, no);
    var row := Reservation.RowFor(call, Reservation.Attempts(call)[0], 1, no);
    result := Reservation.FreshResult(call, row);
    forall selected
      ensures Audit.CapacityHolds(AssignmentAfter(b, CandidateStates(cs), result, selected))
      ensures Audit.VehicleAssigned(AssignmentAfter(b, CandidateStates(cs), result, selected)) <==>
              Text(b.vehicleId).Some?
    {
      ReservedCandidatePassesAudit(cs, b, cargo, call, 0, row, selected);
    }
  }

  /** Every vehicle and every driver has an id, and every vehicle's row is AVAILABLE. */
  ghost predicate ReadyFleet(fleet: seq<Fleet.Vehicle>, store: Reservation.Store) {
    forall v :: v in fleet ==>
      v.vehicleId != "" && (v.driver.Some? ==> v.driver.value.driverId != "")
        && Reservation.IsAvailable(store, v.vehicleId)
  }

  lemma FirstIsTop(r: Fleet.Request, cs: seq<Fleet.Candidate>)
    requires Fleet.Conclude(r, cs).reassigned
    ensures Fleet.Conclude(r, cs).candidates == cs != [] && cs[0].eligible
    ensures Fleet.Conclude(r, cs).selectedVehicle == Some(cs[0].vehicleId)
    ensures Fleet.Conclude(r, cs).selectedDriver == cs[0].driverId
  {
  }

  /** When a suitable vehicle exists, the first candidate is the selected one, with ids and an AVAILABLE row. */
  lemma FirstCandidateIsSelected(s: Snapshot, fleet: seq<Fleet.Vehicle>, r: Fleet.Request, store: Reservation.Store)
    requires Fleet.Routable(s) && Fleet.UniqueVehicles(fleet) && ReadyFleet(fleet, store)
    requires exists v :: v in fleet && Fleet.Suitable(s, r, v)
    ensures var a := Fleet.AllocationOf(s, fleet, r);
      && a.candidates != [] && a.candidates[0].eligible && a.selectedVehicle == Some(a.candidates[0].vehicleId)
      && a.candidates[0].vehicleId != "" && Text(a.candidates[0].driverId).Some?
      && Reservation.IsAvailable(store, a.candidates[0].vehicleId)
  {
    Fleet.SelectionIsUniqueTop(s, fleet, r);
    FirstIsTop(r, Fleet.Ranked(Fleet.Evaluated(s, fleet, r)));
    var v := Fleet.WinnerOf(s, fleet, r);
  }

  /** A breakdown that a suitable vehicle can serve: what an undisturbed call needs to reserve one. */
  ghost predicate Servable(
    s: Snapshot, fleet: seq<Fleet.Vehicle>, b: Breakdown, cargo: Decimal, store: Reservation.Store,
    call: Reservation.Call)
  {
    && Fleet.Routable(s) && Fleet.UniqueVehicles(fleet) && ReadyFleet(fleet, store)
    && (exists v :: v in fleet && Fleet.Suitable(s, RequestOf(b, cargo), v))
    && b.cargoWeight.Some? && Parse(b.cargoWeight.value) == Some(cargo)
    && IsDispatchCall(b, CandidateStates(Offered(s, fleet, b, cargo)), call)
    && call.task in store.tasks && store.dispatches == []
  }

  /** When a suitable vehicle exists and the fleet is still AVAILABLE, a call that nobody disturbs creates a dispatch
      for the selected vehicle, and the audit accepts it exactly when the broken-down vehicle is known. */
  lemma SelectedVehicleIsReserved(
    s: Snapshot, fleet: seq<Fleet.Vehicle>, b: Breakdown, cargo: Decimal, store: Reservation.Store,
    call: Reservation.Call, no: string)
    returns (actions: seq<Reservation.Action>, result: Reservation.DispatchResult)
    requires Servable(s, fleet, b, cargo, store, call)
    ensures Reservation.Initial(Reservation.Alone(store, call, Reservation.Attempting(0)))
    ensures var w := Reservation.Run(Reservation.Alone(store, call, Reservation.Attempting(0)), actions);
      && w.creators == [0] && |w.store.dispatches| == 1 && w.phases == map[0 := Reservation.Returned(result)]
      && w.store.dispatches[0].targetVehicle.Some?
      && w.store.dispatches[0].targetVehicle == Fleet.AllocationOf(s, fleet, RequestOf(b, cargo)).selectedVehicle
    ensures AuditAgrees(b, CandidateStates(Offered(s, fleet, b, cargo)), result)
  {
    FirstCandidateIsSelected(s, fleet, RequestOf(b, cargo), store);
    AllocationRecords(s, fleet, RequestOf(b, cargo));
    actions, result := FirstCandidateIsReserved(Offered(s, fleet, b, cargo), b, cargo, store, call, no);
  }

  /** One node, no road, and one empty vehicle standing there with a licensed driver on duty. */
  const DEPOT := Snapshot(1, [RoadNode("N", "Depot", Decimal(0, 2), Decimal(0, 2), "STATION")], [])
  const SPARE := Fleet.Vehicle(
    "V", "P", "TRUCK", Decimal(100, 2), Decimal(0, 2), "GENERAL", Decimal(0, 2), "AVAILABLE", "N",
    Some(Fleet.Driver("D", "Driver", "B2", "ON_DUTY", "N")))

  lemma SpareIsSuitable(r: Fleet.Request)
    requires r.originalVehicle != "V" && r.incidentNode == "N" && r.destination.None? && r.cargoType != "COLD_CHAIN"
    requires r.cargoWeight == Decimal(100, 2)
    ensures Fleet.Routable(DEPOT) && Fleet.Suitable(DEPOT, r, SPARE)
  {
    QuantizeExact(Decimal(100, 2));
    assert DEPOT.nodes[0] in DEPOT.nodes;
    assert WalkFromTo(UsableNet(DEPOT, SPARE.grossWeight.Value(), {}), "N", "N", ["N"], []);
  }

  /** A call for a breakdown that the only vehicle can serve. */
  lemma CallWith(s: Snapshot, v: Fleet.Vehicle, b: Breakdown, cargo: Decimal)
    returns (store: Reservation.Store, call: Reservation.Call)
    requires Fleet.Routable(s) && Fleet.Suitable(s, RequestOf(b, cargo), v) && v.vehicleId != ""
    requires v.driver.value.driverId != ""
    requires b.cargoWeight.Some? && Parse(b.cargoWeight.value) == Some(cargo)
    ensures Servable(s, [v], b, cargo, store, call)
  {
    store := StoreWith("t", v);
    call := CallOver("t", b, CandidateStates(Offered(s, [v], b, cargo)));
    assert v in [v];
  }

  lemma StoreWith(task: string, v: Fleet.Vehicle) returns (store: Reservation.Store)
    requires v.vehicleId != "" && (v.driver.Some? ==> v.driver.value.driverId != "")
    ensures store.dispatches == [] && task in store.tasks && ReadyFleet([v], store)
  {
    store := Reservation.Store({task}, map[v.vehicleId := Reservation.VehicleRow("AVAILABLE", 1)], []);
  }

  lemma CallOver(task: string, b: Breakdown, states: seq<Audit.CandidateState>) returns (call: Reservation.Call)
    ensures IsDispatchCall(b, states, call) && call.task == task
  {
    var original := if b.originalWeightKnown then b.vehicleId else None;
    call := Reservation.Call(task, 1, "R", None, "KEEP_ROUTE", "", false, original, Refs(states));
  }

  /** There is one in which the broken-down vehicle is not known. */
  lemma UnknownVehicle()
    returns (s: Snapshot, fleet: seq<Fleet.Vehicle>, b: Breakdown, cargo: Decimal, store: Reservation.Store,
      call: Reservation.Call)
    ensures Servable(s, fleet, b, cargo, store, call) && b.vehicleId == None
  {
    s, fleet, cargo := DEPOT, [SPARE], Decimal(100, 2);
    b := Breakdown(None, false, Some(Print(cargo)), None, "N", None);
    PrintParse(cargo);
    SpareIsSuitable(RequestOf(b, cargo));
    store, call := CallWith(s, SPARE, b, cargo);
  }

  /** Its call reserves a vehicle, and the audit's assignment check fails on the result. */
  lemma UnknownVehicleFailsTheAudit()
    returns (s: Snapshot, fleet: seq<Fleet.Vehicle>, b: Breakdown, cargo: Decimal, store: Reservation.Store,
      call: Reservation.Call,
             actions: seq<Reservation.Action>, result: Reservation.DispatchResult)
    ensures Servable(s, fleet, b, cargo, store, call) && b.vehicleId == None
    ensures var w := Reservation.Run(Reservation.Alone(store, call, Reservation.Attempting(0)), actions);
      && w.phases == map[0 := Reservation.Returned(result)]
      && |w.store.dispatches| == 1 && w.store.dispatches[0].targetVehicle.Some?
    ensures forall selected ::
      !Audit.VehicleAssigned(AssignmentAfter(b, CandidateStates(Offered(s, fleet, b, cargo)), result, selected))
  {
    s, fleet, b, cargo, store, call := UnknownVehicle();
    actions, result := SelectedVehicleIsReserved(s, fleet, b, cargo, store, call, "DSP");
  }

  // ----- the route

  /** What the audit compares when it checks the route of a freshly created dispatch. */
  ghost predicate RouteEvidence(call: Reservation.Call, row: Reservation.DispatchRow, ev: Audit.Evidence) {
    && ev.decision == Some(call.decision) && ev.recommendedRoute == call.targetRoute
      && ev.routeId == Some(call.originalRoute)
    && ev.assignment.dispatch.executed == Reservation.FreshResult(call, row).executed
    && ev.assignment.dispatch.targetRoute == row.targetRoute
  }

  /** A reroute names its route; a kept route names none or the original one. */
  predicate RouteAgrees(call: Reservation.Call) {
    && (call.decision == "REROUTE" ==> Text(call.targetRoute).Some?)
    && (call.decision == "KEEP_ROUTE" ==> Text(call.targetRoute).None? || call.targetRoute == Some(call.originalRoute))
  }

  /** The audit's route check on a freshly created dispatch that needs no review: a kept route passes exactly when
      no other route was recommended, and a reroute exactly when one was. */
  lemma RouteCheckAfterDispatch(call: Reservation.Call, c: Option<Reservation.CandidateRef>, id: nat, no: string,
      ev: Audit.Evidence)
    requires RouteEvidence(call, Reservation.RowFor(call, c, id, no), ev)
    requires !Reservation.NeedsReview(call)
    ensures Audit.RouteConsistent(ev) <==> RouteAgrees(call)
  {
  }

  /** A dispatch decided as unsafe is never executed, so the audit's route check passes. */
  lemma UnsafeRouteIsNotExecuted(call: Reservation.Call, c: Option<Reservation.CandidateRef>, id: nat, no: string,
      ev: Audit.Evidence)
    requires RouteEvidence(call, Reservation.RowFor(call, c, id, no), ev) && call.decision == "NO_SAFE_ROUTE"
    ensures Reservation.RowFor(call, c, id, no).status == "REVIEW_REQUIRED" && Audit.RouteConsistent(ev)
  {
  }

  // ----- the verdict

  /** The path in the evidence was found in a documented network, with the blocked edges excluded. */
  ghost predicate PathEvidence(s: Snapshot, t: Trip, ev: Audit.Evidence) {
    && Searchable(s, t) && Audit.Documented(s) && t.start != t.goal && Find(s, t).Some?
    && ev.pathNodes == Find(s, t).value.nodeIds && ev.pathEdges == Find(s, t).value.edgeIds
    && ev.roadEdges == Audit.RowsOf(s.edges) && forall id :: id in ev.blocked ==> id in t.excluded
  }

  /** What the audit node hands on about the dispatch: the decision, the routes and whether a review is asked for. */
  predicate DispatchEvidence(call: Reservation.Call, result: Reservation.DispatchResult, ev: Audit.Evidence) {
    && ev.decision == Some(call.decision) && ev.requiresReview == result.requiresReview
    && ev.recommendedRoute == call.targetRoute && ev.routeId == Some(call.originalRoute)
  }

  /** What is left for the audit to decide. */
  ghost predicate Acceptable(b: Breakdown, call: Reservation.Call, ev: Audit.Evidence) {
    && !Reservation.NeedsReview(call) && !Audit.FailedBefore(ev)
    && (Audit.Issue(ev) == Some("VEHICLE_BREAKDOWN") ==> Text(b.vehicleId).Some?)
    && RouteAgrees(call) && Audit.MemoryConsistent(ev) && Audit.FallbackConsistent(ev)
  }

  lemma PathIsSound(s: Snapshot, t: Trip, ev: Audit.Evidence)
    requires PathEvidence(s, t, ev)
    ensures Audit.PathSound(ev)
  {
    Audit.FoundPathIsOpen(s, t, ev.blocked);
  }

  lemma ReviewExactly(call: Reservation.Call, c: Option<Reservation.CandidateRef>, id: nat, no: string,
      ev: Audit.Evidence)
    requires DispatchEvidence(call, Reservation.FreshResult(call, Reservation.RowFor(call, c, id, no)), ev)
    ensures Audit.AsksForReview(ev) <==> Reservation.NeedsReview(call) || Audit.FailedBefore(ev)
  {
  }

  /** A verdict put together from the checks. */
  lemma VerdictOfChecks(b: Breakdown, call: Reservation.Call, ev: Audit.Evidence)
    requires Audit.AsksForReview(ev) <==> Reservation.NeedsReview(call) || Audit.FailedBefore(ev)
    requires Audit.CapacityHolds(ev.assignment) && (Audit.VehicleAssigned(ev.assignment) <==> Text(b.vehicleId).Some?)
    requires Audit.PathMatters(ev) ==> Audit.PathSound(ev)
    requires !Reservation.NeedsReview(call) ==> (Audit.RouteConsistent(ev) <==> RouteAgrees(call))
    ensures Audit.VerdictOn(ev) == Audit.Approved <==> Acceptable(b, call, ev)
  {
  }

  /** From breakdown to verdict, in every interleaving: when the call made for a breakdown has created a dispatch with a
      target vehicle and a path was found, the audit approves exactly when no review is asked for, the broken-down
      vehicle is known, the routes agree, and memory and fallback are accounted for. */
  lemma CreatedDispatchVerdict(
    s: Snapshot, fleet: seq<Fleet.Vehicle>, b: Breakdown, cargo: Decimal,
    start: Reservation.World, actions: seq<Reservation.Action>, i: nat, c: Reservation.CallId,
    selected: (Option<string>, Option<string>), result: Reservation.DispatchResult,
    road: Snapshot, t: Trip, ev: Audit.Evidence)
    requires Fleet.Routable(s) && Fleet.UniqueVehicles(fleet)
    requires b.cargoWeight.Some? && Parse(b.cargoWeight.value) == Some(cargo)
    requires Reservation.Initial(start) && c in start.calls
    requires IsDispatchCall(b, CandidateStates(Offered(s, fleet, b, cargo)), start.calls[c])
    requires var w := Reservation.Run(start, actions);
      && i < |w.store.dispatches| && i < |w.creators| && w.creators[i] == c && w.store.dispatches[i].targetVehicle.Some?
      && c in w.phases && w.phases[c] == Reservation.Returned(result)
    requires ev.assignment == AssignmentAfter(b, CandidateStates(Offered(s, fleet, b, cargo)), result, selected)
    requires DispatchEvidence(start.calls[c], result, ev) && (Audit.PathMatters(ev) ==> PathEvidence(road, t, ev))
    ensures Audit.VerdictOn(ev) == Audit.Approved <==> Acceptable(b, start.calls[c], ev)
  {
    var row, call := Reservation.Run(start, actions).store.dispatches[i], start.calls[c];
    Reservation.DispatchComesFromItsCreator(start, actions, i);
    var k :| 0 <= k < |Reservation.Attempts(call)|
             && row == Reservation.RowFor(call, Reservation.Attempts(call)[k], row.id, row.dispatchNo);
    CreatedDispatchPassesAudit(s, fleet, b, cargo, start, actions, i, c, selected);
    if Audit.PathMatters(ev) { PathIsSound(road, t, ev); }
    ReviewExactly(call, Reservation.Attempts(call)[k], row.id, row.dispatchNo, ev);
    if !Reservation.NeedsReview(call) {
      RouteCheckAfterDispatch(call, Reservation.Attempts(call)[k], row.id, row.dispatchNo, ev);
    }
    VerdictOfChecks(b, call, ev);
  }
}
