/** The audit's verdict on the fields of the evidence. */
module AuditTheorems {
  import opened Options
  import opened Decimals
  import opened Audit

  predicate Given(v: Option<string>) {
    v.Some? && v.value != ""
  }

  /** The same text, or none on both sides. */
  predicate Alike(a: Option<string>, b: Option<string>) {
    if Given(a) then a == b else !Given(b)
  }

  lemma TextAlike(a: Option<string>, b: Option<string>)
    ensures Text(a) == Text(b) <==> Alike(a, b)
  {
  }

  // ----- the vehicle

  /** Position `i` holds the first entry that carries the id. */
  ghost predicate FirstEntry(cs: seq<CandidateState>, id: Option<string>, i: int) {
    0 <= i < |cs| && cs[i].vehicleId == id && forall j :: 0 <= j < i ==> cs[j].vehicleId != id
  }

  lemma {:induction false} LookupIsFirst(cs: seq<CandidateState>, id: string)
    requires id != ""
    ensures var found := CandidateFor(cs, Some(id));
      && (found.Some? ==> exists i :: FirstEntry(cs, Some(id), i) && cs[i] == found.value)
      && (found.None? ==> forall j :: 0 <= j < |cs| ==> cs[j].vehicleId != Some(id))
  {
    if cs != [] {
      if cs[0].vehicleId == Some(id) {
        assert FirstEntry(cs, Some(id), 0);
      } else {
        LookupIsFirst(cs[1..], id);
        if i :| FirstEntry(cs[1..], Some(id), i) && CandidateFor(cs, Some(id)) == Some(cs[1..][i]) {
          assert forall j :: 1 <= j <= i ==> cs[j] == cs[1..][j - 1];
          assert FirstEntry(cs, Some(id), i + 1);
        }
      }
    }
  }

  lemma FirstEntryIsUnique(cs: seq<CandidateState>, id: Option<string>, i: int, j: int)
    requires FirstEntry(cs, id, i) && FirstEntry(cs, id, j)
    ensures i == j
  {
  }

  /** The vehicle that broke down, as far as the evidence names it. */
  function BrokenDown(a: Assignment): Option<string> {
    if Given(a.dispatch.originalVehicle) then a.dispatch.originalVehicle else a.vehicleId
  }

  /** The load is known on both sides and fits. */
  ghost predicate LoadFits(remaining: Option<string>, cargo: Option<string>) {
    remaining.Some? && cargo.Some? && exists r, c :: Parse(remaining.value) == Some(r) && Parse(cargo.value) == Some(c)
                                                     && r.Value() >= c.Value()
  }

  /** Entry `c` is fit to take over. */
  ghost predicate EntryFits(a: Assignment, c: CandidateState) {
    && c.eligible && c.reasons == [] && c.vehicleStatus == Some("AVAILABLE")
    && (c.driverStatus == Some("ON_DUTY") || c.driverStatus == Some("AVAILABLE"))
    && Alike(c.driverId, a.selectedDriver) && Alike(c.driverId, a.dispatch.targetDriver)
    && LoadFits(c.remaining, a.cargoWeight)
    && (a.cargoType == Some("COLD_CHAIN") ==> c.capability == Some("COLD_CHAIN"))
  }

  /** The dispatched vehicle is the selected one, is not the one that broke down, which is known, and the first entry
      that carries its id is fit to take over. */
  ghost predicate TakeoverSound(a: Assignment) {
    var target := a.dispatch.targetVehicle;
    && Given(target) && a.selectedVehicle == target && Given(BrokenDown(a)) && BrokenDown(a) != target
    && exists i :: FirstEntry(a.candidates, target, i) && EntryFits(a, a.candidates[i])
  }

  lemma EntryOnFields(a: Assignment, c: CandidateState)
    requires Given(a.dispatch.targetVehicle) && CandidateFor(a.candidates, a.dispatch.targetVehicle) == Some(c)
    ensures VehicleAssigned(a) && CapacityHolds(a) <==>
              a.selectedVehicle == a.dispatch.targetVehicle && Given(BrokenDown(a))
              && BrokenDown(a) != a.dispatch.targetVehicle && EntryFits(a, c)
  {
    TextAlike(c.driverId, a.selectedDriver);
    TextAlike(a.selectedDriver, a.dispatch.targetDriver);
    TextAlike(a.selectedVehicle, a.dispatch.targetVehicle);
    CapacityOnFields(a, c);
  }

  lemma CapacityOnFields(a: Assignment, c: CandidateState)
    requires Given(a.dispatch.targetVehicle) && CandidateFor(a.candidates, a.dispatch.targetVehicle) == Some(c)
    ensures CapacityHolds(a) <==>
              LoadFits(c.remaining, a.cargoWeight)
              && (a.cargoType == Some("COLD_CHAIN") ==> c.capability == Some("COLD_CHAIN"))
  {
  }

  lemma TakeoverOnFields(a: Assignment)
    ensures VehicleAssigned(a) && CapacityHolds(a) <==> TakeoverSound(a)
  {
    var target := a.dispatch.targetVehicle;
    if Given(target) {
      LookupIsFirst(a.candidates, target.value);
      var found := CandidateFor(a.candidates, target);
      if found.Some? {
        EntryOnFields(a, found.value);
        var i :| FirstEntry(a.candidates, target, i) && a.candidates[i] == found.value;
        forall j | FirstEntry(a.candidates, target, j) ensures j == i {
          FirstEntryIsUnique(a.candidates, target, i, j);
        }
      }
    }
  }

  // ----- the path

  /** Position `k` holds the last row that carries the id. */
  ghost predicate LastRow(rows: seq<EdgeRow>, id: string, k: int) {
    0 <= k < |rows| && rows[k].edgeId == Some(id) && forall j :: k < j < |rows| ==> rows[j].edgeId != Some(id)
  }

  lemma {:induction false} RowsByIdAreLast(rows: seq<EdgeRow>, id: string)
    requires id != ""
    ensures id in RowsById(rows) <==> exists k :: LastRow(rows, id, k)
    ensures forall k :: LastRow(rows, id, k) ==> id in RowsById(rows) && RowsById(rows)[id] == rows[k]
  {
    if rows != [] {
      var n := |rows| - 1;
      RowsByIdAreLast(rows[..n], id);
      if rows[n].edgeId == Some(id) {
        assert LastRow(rows, id, n);
      } else {
        forall k ensures LastRow(rows, id, k) <==> LastRow(rows[..n], id, k) { LastRowEarlier(rows, id, k); }
      }
    }
  }

  lemma LastRowEarlier(rows: seq<EdgeRow>, id: string, k: int)
    requires rows != [] && rows[|rows| - 1].edgeId != Some(id)
    ensures LastRow(rows, id, k) <==> LastRow(rows[..|rows| - 1], id, k)
  {
    var init := rows[..|rows| - 1];
    assert forall j :: 0 <= j < |init| ==> init[j] == rows[j];
  }

  lemma {:induction false} NoNamelessRows(rows: seq<EdgeRow>)
    ensures "" !in RowsById(rows)
  {
    if rows != [] {
      NoNamelessRows(rows[..|rows| - 1]);
    }
  }

  /** The row leads from `u` to `v`, backwards only if it is bidirectional. */
  predicate Leads(row: EdgeRow, u: string, v: string) {
    u != "" && v != "" && ((row.fromNode == Some(u) && row.toNode == Some(v))
      || (row.bidirectional && row.toNode == Some(u) && row.fromNode == Some(v)))
  }

  /** Step `i` of the path: the last row of its edge leads on, is open, and the edge is not blocked. */
  ghost predicate StepSound(ev: Evidence, i: int)
    requires 0 <= i < |ev.pathEdges| && i + 1 < |ev.pathNodes|
  {
    && ev.pathEdges[i] !in ev.blocked
    && exists k :: LastRow(ev.roadEdges, ev.pathEdges[i], k) && ev.pathEdges[i] != ""
        && Leads(ev.roadEdges[k], ev.pathNodes[i], ev.pathNodes[i + 1])
        && (ev.roadEdges[k].status == Some("OPEN") || ev.roadEdges[k].status == Some("CONGESTED")
            || ev.roadEdges[k].status == Some("RESTRICTED"))
  }

  ghost predicate RouteSound(ev: Evidence) {
    && ev.pathEdges != [] && |ev.pathNodes| == |ev.pathEdges| + 1
    && forall i :: 0 <= i < |ev.pathEdges| ==> StepSound(ev, i)
  }

  ghost predicate StepHolds(ev: Evidence, i: int)
    requires 0 <= i < |ev.pathEdges| && i + 1 < |ev.pathNodes|
  {
    var rows, id := RowsById(ev.roadEdges), ev.pathEdges[i];
    && id in rows && RowCrosses(rows[id], ev.pathNodes[i], ev.pathNodes[i + 1]) && id !in ev.blocked
    && rows[id].status.Some? && rows[id].status.value in ALLOWED_STATUSES
  }

  lemma StepOnFields(ev: Evidence, i: int)
    requires 0 <= i < |ev.pathEdges| && i + 1 < |ev.pathNodes|
    ensures StepHolds(ev, i) <==> StepSound(ev, i)
  {
    NoNamelessRows(ev.roadEdges);
    if ev.pathEdges[i] != "" { RowsByIdAreLast(ev.roadEdges, ev.pathEdges[i]); }
  }

  lemma PathBySteps(ev: Evidence)
    ensures PathSound(ev) <==>
              ev.pathEdges != [] && |ev.pathNodes| == |ev.pathEdges| + 1
              && forall i :: 0 <= i < |ev.pathEdges| ==> StepHolds(ev, i)
  {
    var rows := RowsById(ev.roadEdges);
    if PathSound(ev) {
      forall i | 0 <= i < |ev.pathEdges| ensures StepHolds(ev, i) {}
    } else if ev.pathEdges != [] && |ev.pathNodes| == |ev.pathEdges| + 1
              && forall i :: 0 <= i < |ev.pathEdges| ==> StepHolds(ev, i) {
      forall i | 0 <= i < |ev.pathEdges|
        ensures ev.pathEdges[i] in rows && RowCrosses(rows[ev.pathEdges[i]], ev.pathNodes[i], ev.pathNodes[i + 1])
        ensures ev.pathEdges[i] !in ev.blocked && rows[ev.pathEdges[i]].status.Some?
        ensures rows[ev.pathEdges[i]].status.value in ALLOWED_STATUSES
      {
        assert StepHolds(ev, i);
      }
    }
  }

  lemma PathOnFields(ev: Evidence)
    ensures PathSound(ev) <==> RouteSound(ev)
  {
    PathBySteps(ev);
    if |ev.pathNodes| == |ev.pathEdges| + 1 {
      forall i | 0 <= i < |ev.pathEdges| ensures StepHolds(ev, i) <==> StepSound(ev, i) { StepOnFields(ev, i); }
    }
  }

  // ----- the verdict

  predicate ReviewAsked(ev: Evidence) {
    || ev.decision == Some("MANUAL_REVIEW") || ev.requiresReview
    || ev.errorCode == Some("DISPATCH_CONFLICT") || ev.errorCode == Some("DISPATCH_VERSION_CONFLICT")
    || ev.errorCode == Some("VEHICLE_RESERVATION_CONFLICT")
  }

  /** The identified issue, or the reported anomaly when none was identified. */
  predicate About(ev: Evidence, issue: string) {
    if Given(ev.identifiedIssue) then ev.identifiedIssue == Some(issue) else ev.anomalyType == Some(issue)
  }

  predicate DecisionCarriedOut(ev: Evidence) {
    var d := ev.assignment.dispatch;
    && (ev.decision == Some("NO_SAFE_ROUTE") ==> !d.executed)
    && (ev.decision == Some("REROUTE") ==>
          d.executed && Given(ev.recommendedRoute) && d.targetRoute == ev.recommendedRoute)
    && (ev.decision == Some("KEEP_ROUTE") ==> d.executed && Alike(d.targetRoute, ev.routeId))
  }

  predicate MemoryRecalled(ev: Evidence) {
    ev.memoryAdopted ==> Given(ev.adoptedMemory) && ev.adoptedMemory.value in ev.memories
  }

  predicate FallbackExplained(ev: Evidence) {
    ev.fallbackUsed ==> Given(ev.fallbackReason)
  }

  lemma ReviewOnFields(ev: Evidence)
    ensures AsksForReview(ev) <==> ReviewAsked(ev)
  {
  }

  lemma IssueOnFields(ev: Evidence, issue: string)
    requires issue != ""
    ensures Issue(ev) == Some(issue) <==> About(ev, issue)
  {
  }

  lemma DecisionOnFields(ev: Evidence)
    ensures RouteConsistent(ev) <==> DecisionCarriedOut(ev)
  {
    TextAlike(ev.assignment.dispatch.targetRoute, ev.routeId);
  }

  lemma BooksOnFields(ev: Evidence)
    ensures MemoryConsistent(ev) <==> MemoryRecalled(ev)
    ensures FallbackConsistent(ev) <==> FallbackExplained(ev)
  {
  }

  /** A review is asked for exactly in these five cases; otherwise the audit approves exactly when a breakdown has a
      sound takeover, a blocked road a sound path, the decision was carried out, adopted memory was recalled and a
      fallback is explained, and rejects in all other cases. */
  lemma VerdictOnFields(ev: Evidence)
    ensures VerdictOn(ev) == ReviewRequired <==> ReviewAsked(ev)
    ensures VerdictOn(ev) == Approved <==>
      && !ReviewAsked(ev)
      && (About(ev, "VEHICLE_BREAKDOWN") ==> TakeoverSound(ev.assignment))
      && (About(ev, "ROAD_BLOCKED") || ev.blocked != [] ==> RouteSound(ev))
      && DecisionCarriedOut(ev) && MemoryRecalled(ev) && FallbackExplained(ev)
  {
    ReviewOnFields(ev);
    IssueOnFields(ev, "VEHICLE_BREAKDOWN");
    IssueOnFields(ev, "ROAD_BLOCKED");
    TakeoverOnFields(ev.assignment);
    PathOnFields(ev);
    DecisionOnFields(ev);
    BooksOnFields(ev);
  }

  /** A dispatch whose vehicle cannot take the load is never approved in a breakdown. */
  lemma OverloadIsRejected(ev: Evidence, i: int)
    requires About(ev, "VEHICLE_BREAKDOWN") && !ReviewAsked(ev)
    requires FirstEntry(ev.assignment.candidates, ev.assignment.dispatch.targetVehicle, i)
    requires !LoadFits(ev.assignment.candidates[i].remaining, ev.assignment.cargoWeight)
    ensures VerdictOn(ev) == Rejected
  {
    VerdictOnFields(ev);
    var cs, target := ev.assignment.candidates, ev.assignment.dispatch.targetVehicle;
    forall j | FirstEntry(cs, target, j) ensures j == i { FirstEntryIsUnique(cs, target, i, j); }
  }
}
