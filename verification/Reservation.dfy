/** DispatchService.execute as a protocol: any number of calls, each a sequence of
    transactions over shared vehicle and dispatch rows, interleaved arbitrarily. */
module Reservation {
  import opened Options

  type CallId = nat

  datatype VehicleRow = VehicleRow(status: string, version: nat)

  datatype DispatchRow = DispatchRow(
    id: nat, dispatchNo: string, task: string, orderId: int, originalRoute: string, targetRoute: Option<string>,
    originalVehicle: Option<string>, targetVehicle: Option<string>, targetDriver: Option<string>,
    reason: string, status: string, version: nat)

  datatype Store = Store(tasks: set<string>, vehicles: map<string, VehicleRow>, dispatches: seq<DispatchRow>)

  datatype CandidateRef = CandidateRef(vehicleId: Option<string>, driverId: Option<string>, eligible: bool)

  /** The arguments of one execute call. */
  datatype Call = Call(
    task: string, orderId: int, originalRoute: string, targetRoute: Option<string>, decision: string, reason: string,
    requiresReview: bool, originalVehicle: Option<string>, candidates: seq<CandidateRef>)

  datatype DispatchResult = DispatchResult(
    dispatchId: nat, dispatchNo: string, orderId: int, task: string, status: string, originalRoute: string,
    targetRoute: Option<string>, version: nat, executed: bool, reason: string, requiresReview: bool,
    originalVehicle: Option<string>, targetVehicle: Option<string>, targetDriver: Option<string>)

  // ----- one attempt

  function Eligible(cs: seq<CandidateRef>): (r: seq<CandidateRef>)
    ensures forall c :: c in r <==> c in cs && c.eligible
  {
    if cs == [] then [] else (if cs[0].eligible then [cs[0]] else []) + Eligible(cs[1..])
  }

  /** The candidates a call tries in turn: the first two eligible ones, or none at all. */
  function Attempts(call: Call): (r: seq<Option<CandidateRef>>)
    ensures 1 <= |r| <= 2
    ensures forall i :: 0 <= i < |r| ==>
              if r[i].Some? then r[i].value in call.candidates && r[i].value.eligible
              else r == [None] && forall c :: c in call.candidates ==> !c.eligible
  {
    FirstTwo(Eligible(call.candidates))
  }

  function FirstTwo(es: seq<CandidateRef>): (r: seq<Option<CandidateRef>>)
    ensures 1 <= |r| <= 2
    ensures forall i :: 0 <= i < |r| ==> if r[i].Some? then r[i].value in es else r == [None] && es == []
  {
    if es == [] then [None] else if |es| == 1 then [Some(es[0])] else [Some(es[0]), Some(es[1])]
  }

  lemma FirstTwoOf(x: CandidateRef, es: seq<CandidateRef>)
    ensures FirstTwo([x] + es) == if es == [] then [Some(x)] else [Some(x), Some(es[0])]
  {
  }

  /** The position of the first eligible candidate, or the length of the list. */
  function FirstEligible(cs: seq<CandidateRef>): (k: nat)
    ensures k <= |cs| && (k < |cs| ==> cs[k].eligible) && forall j :: 0 <= j < k ==> !cs[j].eligible
  {
    if cs == [] || cs[0].eligible then 0 else 1 + FirstEligible(cs[1..])
  }

  lemma {:induction false} EligibleFromFirst(cs: seq<CandidateRef>)
    ensures var k := FirstEligible(cs); Eligible(cs) == if k == |cs| then [] else [cs[k]] + Eligible(cs[k + 1..])
  {
    if cs != [] {
      if cs[0].eligible {
        assert Eligible(cs) == [cs[0]] + Eligible(cs[1..]);
      } else {
        var rest, k := cs[1..], FirstEligible(cs[1..]);
        EligibleFromFirst(rest);
        assert Eligible(cs) == [] + Eligible(rest) == Eligible(rest);
        if k < |rest| { assert rest[k + 1..] == cs[k + 2..] && rest[k] == cs[k + 1]; }
      }
    }
  }

  /** The attempts are the first and the second eligible candidate in the order of the list. */
  lemma AttemptsAreTheFirstTwo(call: Call)
    ensures var cs, k := call.candidates, FirstEligible(call.candidates);
      if k == |cs| then Attempts(call) == [None]
      else
        var rest := cs[k + 1..];
        var m := FirstEligible(rest);
        Attempts(call) == if m == |rest| then [Some(cs[k])] else [Some(cs[k]), Some(rest[m])]
  {
    var cs, k := call.candidates, FirstEligible(call.candidates);
    EligibleFromFirst(cs);
    if k < |cs| {
      EligibleFromFirst(cs[k + 1..]);
      FirstTwoOf(cs[k], Eligible(cs[k + 1..]));
    }
  }

  predicate NeedsReview(call: Call) {
    call.requiresReview || call.decision == "MANUAL_REVIEW" || call.decision == "NO_SAFE_ROUTE"
  }

  function VehicleOf(c: Option<CandidateRef>): Option<string> {
    match c case None => None case Some(x) => Text(x.vehicleId)
  }

  function DriverOf(c: Option<CandidateRef>): Option<string> {
    match c case None => None case Some(x) => Text(x.driverId)
  }

  function RowFor(call: Call, c: Option<CandidateRef>, id: nat, no: string): DispatchRow {
    DispatchRow(
      id, no, call.task, call.orderId, call.originalRoute,
      if NeedsReview(call) || Text(call.targetRoute).Some? then call.targetRoute else Some(call.originalRoute),
      call.originalVehicle, VehicleOf(c), DriverOf(c), call.reason,
      if NeedsReview(call) then "REVIEW_REQUIRED" else if call.decision == "REROUTE" then "REROUTED" else "KEPT_ROUTE",
      1)
  }

  /** What the creating call answers. */
  function FreshResult(call: Call, row: DispatchRow): DispatchResult {
    DispatchResult(row.id, row.dispatchNo, call.orderId, call.task, row.status, call.originalRoute, row.targetRoute,
                   row.version, !NeedsReview(call), call.reason, NeedsReview(call),
                   call.originalVehicle, row.targetVehicle, row.targetDriver)
  }

  /** What a call answers that finds the dispatch already stored. */
  function StoredResult(call: Call, row: DispatchRow): DispatchResult {
    DispatchResult(row.id, row.dispatchNo, call.orderId, call.task, row.status,
                   if row.originalRoute == "" then call.originalRoute else row.originalRoute, row.targetRoute,
                   row.version, row.status != "REVIEW_REQUIRED", if row.reason == "" then call.reason else row.reason,
                   row.status == "REVIEW_REQUIRED", row.originalVehicle, row.targetVehicle, row.targetDriver)
  }

  lemma FreshIsStored(call: Call, c: Option<CandidateRef>, id: nat, no: string)
    ensures FreshResult(call, RowFor(call, c, id, no)) == StoredResult(call, RowFor(call, c, id, no))
  {
  }

  /** What a stored row says: the status tells review, reroute and kept route apart. */
  lemma RowOnFields(call: Call, c: Option<CandidateRef>, id: nat, no: string)
    ensures var row := RowFor(call, c, id, no);
      var review := call.requiresReview || call.decision == "MANUAL_REVIEW" || call.decision == "NO_SAFE_ROUTE";
      && (row.status == "REVIEW_REQUIRED" <==> review)
      && (row.status == "REROUTED" <==> !review && call.decision == "REROUTE")
      && (row.status == "KEPT_ROUTE" <==> !review && call.decision != "REROUTE")
      && (review || (call.targetRoute.Some? && call.targetRoute.value != "") ==> row.targetRoute == call.targetRoute)
      && (!review && (call.targetRoute == None || call.targetRoute == Some("")) ==>
            row.targetRoute == Some(call.originalRoute))
      && (c.None? ==> row.targetVehicle == None && row.targetDriver == None)
      && (c.Some? && c.value.vehicleId != Some("") ==> row.targetVehicle == c.value.vehicleId)
      && (c.Some? && c.value.driverId != Some("") ==> row.targetDriver == c.value.driverId)
      && row.task == call.task && row.orderId == call.orderId && row.originalRoute == call.originalRoute
      && row.originalVehicle == call.originalVehicle && row.reason == call.reason
      && row.id == id && row.dispatchNo == no && row.version == 1
  {
  }

  /** What a call reports about a stored row: executed unless it waits for review. */
  lemma ResultOnFields(call: Call, row: DispatchRow)
    ensures var r := StoredResult(call, row);
      && r.dispatchId == row.id && r.dispatchNo == row.dispatchNo && r.status == row.status && r.version == row.version
      && r.task == call.task && r.orderId == call.orderId && r.targetRoute == row.targetRoute
      && r.originalVehicle == row.originalVehicle && r.targetVehicle == row.targetVehicle
      && r.targetDriver == row.targetDriver
      && (r.requiresReview <==> row.status == "REVIEW_REQUIRED") && (r.executed <==> row.status != "REVIEW_REQUIRED")
      && (row.originalRoute != "" ==> r.originalRoute == row.originalRoute)
      && (row.originalRoute == "" ==> r.originalRoute == call.originalRoute)
      && (row.reason != "" ==> r.reason == row.reason) && (row.reason == "" ==> r.reason == call.reason)
  {
  }

  // ----- the interleaving

  /** Where a call stands between two transactions steps. */
  datatype Phase =
    | Attempting(k: nat)
    | Checked(k: nat)
    | Ready(k: nat, version: nat)
    | ReadingBack
    | Returned(result: DispatchResult)
    | Failed(error: string)

  datatype World = World(store: Store, calls: map<CallId, Call>, phases: map<CallId, Phase>, creators: seq<CallId>)

  datatype Action =
    | Check(c: CallId)                  // read the task and its dispatch
    | ReadVehicle(c: CallId)            // read the candidate's row
    | Commit(c: CallId, no: string)     // flush and commit succeed
    | CommitStale(c: CallId)            // the vehicle row changed: StaleDataError, rollback
    | CommitDuplicate(c: CallId, no: string) // a unique key is taken: IntegrityError, rollback
    | ReadBack(c: CallId)               // a new session reads the winner
    | Abort(c: CallId)                  // any other error or a crash: rollback

  function FindDispatch(rows: seq<DispatchRow>, task: string): (r: Option<DispatchRow>)
    ensures r.Some? ==> r.value in rows && r.value.task == task
    ensures r.None? ==> forall d :: d in rows ==> d.task != task
  {
    if rows == [] then None
    else if rows[0].task == task then Some(rows[0])
    else FindDispatch(rows[1..], task)
  }

  predicate NumberTaken(rows: seq<DispatchRow>, no: string) {
    exists i :: 0 <= i < |rows| && rows[i].dispatchNo == no
  }

  /** The vehicle row no longer carries the version that was read. */
  predicate Stale(store: Store, v: Option<string>, version: nat) {
    v.Some? && (v.value !in store.vehicles || store.vehicles[v.value].version != version)
  }

  function CheckStep(w: World, call: Call, k: nat): Phase {
    if k >= |Attempts(call)| then Failed("VEHICLE_RESERVATION_CONFLICT")
    else if call.task !in w.store.tasks then Failed("Dispatch task does not exist")
    else match FindDispatch(w.store.dispatches, call.task)
      case Some(row) => Returned(StoredResult(call, row))
      case None => Checked(k)
  }

  function ReadVehicleStep(w: World, call: Call, k: nat): Phase
    requires k < |Attempts(call)|
  {
    var c := Attempts(call)[k];
    var v := VehicleOf(c);
    if c.None? then Ready(k, 0)
    else if v.None? || v.value !in w.store.vehicles || w.store.vehicles[v.value].status != "AVAILABLE"
      || DriverOf(c).None?
    then Attempting(k + 1)
    else Ready(k, w.store.vehicles[v.value].version)
  }

  function ReadBackStep(w: World, call: Call): Phase {
    match FindDispatch(w.store.dispatches, call.task)
    case Some(row) => Returned(StoredResult(call, row))
    case None => Failed("IntegrityError")
  }

  function Reserve(vehicles: map<string, VehicleRow>, v: Option<string>): map<string, VehicleRow> {
    if v.Some? && v.value in vehicles
    then vehicles[v.value := VehicleRow("RESERVED", vehicles[v.value].version + 1)]
    else vehicles
  }

  /** The row and the reservation of its vehicle, stored together. */
  function Stored(store: Store, row: DispatchRow): Store {
    Store(store.tasks, Reserve(store.vehicles, row.targetVehicle), store.dispatches + [row])
  }

  function CommitStep(w: World, c: CallId, call: Call, k: nat, no: string): World
    requires k < |Attempts(call)|
  {
    var row := RowFor(call, Attempts(call)[k], |w.store.dispatches| + 1, no);
    World(Stored(w.store, row), w.calls, w.phases[c := Returned(FreshResult(call, row))], w.creators + [c])
  }

  /** One step of one call; an action that is not enabled changes nothing. */
  function Apply(w: World, a: Action): World {
    if a.c !in w.calls || a.c !in w.phases then w
    else
      var call, p := w.calls[a.c], w.phases[a.c];
      match a
      case Check(c) => if p.Attempting? then w.(phases := w.phases[c := CheckStep(w, call, p.k)]) else w
      case ReadVehicle(c) =>
        if p.Checked? && p.k < |Attempts(call)| then w.(phases := w.phases[c := ReadVehicleStep(w, call, p.k)]) else w
      case Commit(c, no) =>
        if p.Ready? && p.k < |Attempts(call)| && !Stale(w.store, VehicleOf(Attempts(call)[p.k]), p.version)
           && FindDispatch(w.store.dispatches, call.task).None? && !NumberTaken(w.store.dispatches, no)
        then CommitStep(w, c, call, p.k, no) else w
      case CommitStale(c) =>
        if p.Ready? && p.k < |Attempts(call)| && Stale(w.store, VehicleOf(Attempts(call)[p.k]), p.version)
        then w.(phases := w.phases[c := Attempting(p.k + 1)]) else w
      case CommitDuplicate(c, no) =>
        if p.Ready? && (FindDispatch(w.store.dispatches, call.task).Some? || NumberTaken(w.store.dispatches, no))
        then w.(phases := w.phases[c := ReadingBack]) else w
      case ReadBack(c) =>
        if p.ReadingBack? then w.(phases := w.phases[c := ReadBackStep(w, call)]) else w
      case Abort(c) => if p.Returned? || p.Failed? then w else w.(phases := w.phases[c := Failed("error")])
  }

  function Run(w: World, actions: seq<Action>): World {
    if actions == [] then w else Apply(Run(w, actions[..|actions| - 1]), actions[|actions| - 1])
  }

  /** Before any call: no dispatches, any vehicles in any status, every call at its first attempt. */
  ghost predicate Initial(w: World) {
    w.store.dispatches == [] && w.creators == [] && w.phases.Keys == w.calls.Keys
    && forall c :: c in w.phases ==> w.phases[c] == Attempting(0)
  }

  // ----- the code of one call

  /** A single call against a given store. */
  function Alone(store: Store, call: Call, p: Phase): World {
    World(store, map[0 := call], map[0 := p], [])
  }

  lemma RunStep(w: World, actions: seq<Action>, a: Action)
    ensures Run(w, actions + [a]) == Apply(Run(w, actions), a)
  {
  }

  /** A step of the lone call itself, which does not crash and draws the dispatch number `no`. */
  predicate OwnStep(a: Action, no: string) {
    a.c == 0 && !a.Abort? && (a.Commit? || a.CommitDuplicate? ==> a.no == no)
  }

  /** The actions carry a lone call to phase `p` and leave the store alone. */
  ghost predicate Leads(store: Store, call: Call, no: string, actions: seq<Action>, p: Phase) {
    && Run(Alone(store, call, Attempting(0)), actions) == Alone(store, call, p)
    && forall a :: a in actions ==> OwnStep(a, no)
  }

  /** One more step of a lone call that does not commit. */
  lemma {:induction false} LeadsOn(store: Store, call: Call, no: string, actions: seq<Action>, p: Phase, a: Action,
      p': Phase)
    requires Leads(store, call, no, actions, p) && OwnStep(a, no)
    requires Apply(Alone(store, call, p), a) == Alone(store, call, p')
    ensures Leads(store, call, no, actions + [a], p')
  {
  }

  lemma {:induction false} StaleLeads(store: Store, call: Call, before: seq<Action>, k: nat, version: nat, no: string)
    requires Leads(store, call, no, before, Ready(k, version)) && k < |Attempts(call)|
    requires Stale(store, VehicleOf(Attempts(call)[k]), version)
    ensures Leads(store, call, no, before + [CommitStale(0)], Attempting(k + 1))
  {
  }

  lemma {:induction false} DuplicateLeads(store: Store, call: Call, before: seq<Action>, k: nat, version: nat,
      no: string)
    requires Leads(store, call, no, before, Ready(k, version))
    requires FindDispatch(store.dispatches, call.task).Some? || NumberTaken(store.dispatches, no)
    ensures Leads(store, call, no, before + [CommitDuplicate(0, no)], ReadingBack)
  {
  }

  /** What a commit by the lone call leaves behind. */
  lemma {:induction false} CommitLeads(store: Store, call: Call, before: seq<Action>, k: nat, version: nat, no: string)
    requires Leads(store, call, no, before, Ready(k, version)) && k < |Attempts(call)|
    requires !NumberTaken(store.dispatches, no)
    requires FindDispatch(store.dispatches, call.task).None? && !Stale(store, VehicleOf(Attempts(call)[k]), version)
    ensures Run(Alone(store, call, Attempting(0)), before + [Commit(0, no)])
         == Committed(store, call, RowFor(call, Attempts(call)[k], |store.dispatches| + 1, no))
  {
    var w := Alone(store, call, Ready(k, version));
    RunStep(Alone(store, call, Attempting(0)), before, Commit(0, no));
    CommitEnabled(w, 0, no);
    AloneCommits(store, call, k, version, no);
  }

  function Committed(store: Store, call: Call, row: DispatchRow): World {
    World(Stored(store, row), map[0 := call], map[0 := Returned(FreshResult(call, row))], [0])
  }

  lemma {:induction false} AloneCommits(store: Store, call: Call, k: nat, version: nat, no: string)
    requires k < |Attempts(call)|
    ensures CommitStep(Alone(store, call, Ready(k, version)), 0, call, k, no)
         == Committed(store, call, RowFor(call, Attempts(call)[k], |store.dispatches| + 1, no))
  {
  }

  lemma {:induction false} CommitEnabled(w: World, c: CallId, no: string)
    requires c in w.calls && c in w.phases && w.phases[c].Ready? && w.phases[c].k < |Attempts(w.calls[c])|
    requires !NumberTaken(w.store.dispatches, no) && FindDispatch(w.store.dispatches, w.calls[c].task).None?
    requires !Stale(w.store, VehicleOf(Attempts(w.calls[c])[w.phases[c].k]), w.phases[c].version)
    ensures Apply(w, Commit(c, no)) == CommitStep(w, c, w.calls[c], w.phases[c].k, no)
  {
  }

  // ----- the outcome of an undisturbed call, on the rows

  predicate IsAvailable(store: Store, v: string) {
    v in store.vehicles && store.vehicles[v].status == "AVAILABLE"
  }

  /** The attempt can go through: it asks for no vehicle, or for one that is AVAILABLE, with a driver. */
  predicate Obtainable(store: Store, c: Option<CandidateRef>) {
    c.Some? ==>
      && c.value.vehicleId.Some? && c.value.vehicleId.value != "" && IsAvailable(store, c.value.vehicleId.value)
      && c.value.driverId.Some? && c.value.driverId.value != ""
  }

  /** What the reads of attempt `k` come to. */
  ghost predicate Reads(store: Store, call: Call, k: nat, p: Phase)
    requires k < |Attempts(call)|
  {
    var stored := FindDispatch(store.dispatches, call.task);
    if call.task !in store.tasks then p == Failed("Dispatch task does not exist")
    else if stored.Some? then p == Returned(StoredResult(call, stored.value))
    else if Obtainable(store, Attempts(call)[k])
    then p.Ready? && p.k == k && !Stale(store, VehicleOf(Attempts(call)[k]), p.version)
    else p == Attempting(k + 1)
  }

  /** A dispatch row is stored for the attempt, its vehicle is RESERVED, and the call returns the row. */
  ghost predicate Creates(before: Store, after: Store, call: Call, c: Option<CandidateRef>, no: string, p: Phase) {
    var row := RowFor(call, c, |before.dispatches| + 1, no);
    var v := VehicleOf(c);
    && after.tasks == before.tasks && after.dispatches == before.dispatches + [row]
    && p == Returned(FreshResult(call, row))
    && after.vehicles == if v.None? || v.value !in before.vehicles then before.vehicles
         else before.vehicles[v.value := VehicleRow("RESERVED", before.vehicles[v.value].version + 1)]
  }

  ghost predicate NumberFree(store: Store, no: string) {
    forall d :: d in store.dispatches ==> d.dispatchNo != no
  }

  lemma FreeOrTaken(store: Store, no: string)
    ensures NumberFree(store, no) <==> !NumberTaken(store.dispatches, no)
  {
  }

  lemma CommitCreates(store: Store, call: Call, c: Option<CandidateRef>, no: string)
    ensures var row := RowFor(call, c, |store.dispatches| + 1, no);
      Creates(store, Stored(store, row), call, c, no, Returned(FreshResult(call, row)))
  {
  }

  /** The task exists and has no dispatch yet. */
  ghost predicate Undispatched(store: Store, task: string) {
    task in store.tasks && forall d :: d in store.dispatches ==> d.task != task
  }

  /** The first attempt that can go through. */
  function Chosen(store: Store, call: Call): Option<Option<CandidateRef>> {
    var attempts := Attempts(call);
    if Obtainable(store, attempts[0]) then Some(attempts[0])
    else if |attempts| == 2 && Obtainable(store, attempts[1]) then Some(attempts[1])
    else None
  }

  /** It is the first of the first two eligible candidates that is AVAILABLE with a driver; without eligible candidates
      the call goes through without a vehicle. */
  lemma ChosenIsTheFirstObtainable(store: Store, call: Call)
    ensures var cs, k := call.candidates, FirstEligible(call.candidates);
      if k == |cs| then Chosen(store, call) == Some(None)
      else if Obtainable(store, Some(cs[k])) then Chosen(store, call) == Some(Some(cs[k]))
      else
        var rest, m := cs[k + 1..], FirstEligible(cs[k + 1..]);
        Chosen(store, call) == if m < |rest| && Obtainable(store, Some(rest[m])) then Some(Some(rest[m])) else None
  {
    AttemptsAreTheFirstTwo(call);
  }

  /** execute as a whole, from the rows before to the rows after and the answer. */
  ghost predicate Outcome(before: Store, after: Store, call: Call, no: string, p: Phase) {
    && (call.task !in before.tasks ==> p == Failed("Dispatch task does not exist") && after == before)
    && (call.task in before.tasks && !Undispatched(before, call.task) ==>
          && after == before
          && exists d :: d in before.dispatches && d.task == call.task && p == Returned(StoredResult(call, d)))
    && (Undispatched(before, call.task) && Chosen(before, call).None? ==>
          p == Failed("VEHICLE_RESERVATION_CONFLICT") && after == before)
    && (Undispatched(before, call.task) && Chosen(before, call).Some? && NumberFree(before, no) ==>
          Creates(before, after, call, Chosen(before, call).value, no, p))
    && (Undispatched(before, call.task) && Chosen(before, call).Some? && !NumberFree(before, no) ==>
          p == Failed("IntegrityError") && after == before)
  }

  /** The attempts before `k` cannot go through. */
  ghost predicate Refused(store: Store, call: Call, k: nat) {
    forall j :: 0 <= j < k && j < |Attempts(call)| ==> !Obtainable(store, Attempts(call)[j])
  }

  lemma ReadsEnd(store: Store, call: Call, no: string, k: nat, p: Phase)
    requires k < |Attempts(call)| && Reads(store, call, k, p) && (p.Returned? || p.Failed?)
    ensures Outcome(store, store, call, no, p)
  {
  }

  lemma ReadsGoOn(store: Store, call: Call, k: nat, p: Phase)
    requires k < |Attempts(call)| && Reads(store, call, k, p) && !p.Returned? && !p.Failed?
    ensures Undispatched(store, call.task)
    ensures if p.Ready? then Obtainable(store, Attempts(call)[k]) else !Obtainable(store, Attempts(call)[k])
  {
  }

  lemma ChosenAt(store: Store, call: Call, k: nat)
    requires Refused(store, call, k)
    ensures k < |Attempts(call)| && Obtainable(store, Attempts(call)[k]) ==>
              Chosen(store, call) == Some(Attempts(call)[k])
    ensures k == |Attempts(call)| ==> Chosen(store, call) == None
  {
  }

  lemma CommitEnds(before: Store, after: Store, call: Call, no: string, k: nat, p: Phase)
    requires k < |Attempts(call)| && Undispatched(before, call.task) && Refused(before, call, k)
    requires Obtainable(before, Attempts(call)[k])
    requires if NumberFree(before, no) then Creates(before, after, call, Attempts(call)[k], no, p)
             else p == Failed("IntegrityError") && after == before
    ensures Outcome(before, after, call, no, p)
  {
    ChosenAt(before, call, k);
  }

  lemma ConflictEnds(store: Store, call: Call, no: string)
    requires Undispatched(store, call.task) && Refused(store, call, |Attempts(call)|)
    ensures Outcome(store, store, call, no, Failed("VEHICLE_RESERVATION_CONFLICT"))
  {
    ChosenAt(store, call, |Attempts(call)|);
  }

  lemma UndispatchedFindsNone(store: Store, task: string)
    requires Undispatched(store, task)
    ensures FindDispatch(store.dispatches, task).None?
  {
  }

  class Database {
    var store: Store

    constructor (store: Store)
      ensures this.store == store
    {
      this.store := store;
    }

    /** execute, undisturbed: what it does to the rows and answers, which is what a run of the protocol by its own
        steps does. */
    method Execute(call: Call, no: string) returns (p: Phase, ghost actions: seq<Action>)
      modifies this
      ensures p.Returned? || p.Failed?
      ensures Outcome(old(store), store, call, no, p)
      ensures forall a :: a in actions ==> OwnStep(a, no)
      ensures var w := Run(Alone(old(store), call, Attempting(0)), actions);
        w.store == store && w.phases == map[0 := p]
    {
      var attempts := Attempts(call);
      p, actions := Attempting(0), [];
      for k := 0 to |attempts|
        invariant p == Attempting(k) && store == old(store) && Leads(store, call, no, actions, p)
        invariant (k > 0 ==> Undispatched(store, call.task)) && Refused(store, call, k)
      {
        p, actions := ReadAttempt(call, k, no, actions);
        if p.Returned? || p.Failed? {
          ReadsEnd(store, call, no, k, p);
          return;
        }
        ReadsGoOn(store, call, k, p);
        if p.Ready? { // undisturbed, the row just read is still current
          UndispatchedFindsNone(store, call.task);
          p, actions := CommitAttempt(call, k, p.version, no, actions);
          CommitEnds(old(store), store, call, no, k, p);
          return;
        }
      }
      ConflictEnds(store, call, no);
      LeadsOn(store, call, no, actions, p, Check(0), Failed("VEHICLE_RESERVATION_CONFLICT"));
      p := Failed("VEHICLE_RESERVATION_CONFLICT");
      actions := actions + [Check(0)];
    }

    /** The reads of an attempt: the task, its dispatch and the candidate's row. */
    method ReadAttempt(call: Call, k: nat, no: string, ghost before: seq<Action>)
      returns (p: Phase, ghost actions: seq<Action>)
      requires k < |Attempts(call)| && Leads(store, call, no, before, Attempting(k))
      ensures Reads(store, call, k, p)
      ensures Leads(store, call, no, actions, p)
    {
      p := CheckStep(Alone(store, call, Attempting(k)), call, k);
      LeadsOn(store, call, no, before, Attempting(k), Check(0), p);
      actions := before + [Check(0)];
      if p.Checked? {
        p := ReadVehicleStep(Alone(store, call, Checked(k)), call, k);
        LeadsOn(store, call, no, actions, Checked(k), ReadVehicle(0), p);
        actions := actions + [ReadVehicle(0)];
      }
    }

    /** Flush and commit of an attempt: a changed vehicle row ends the attempt, a taken unique key rolls back and
        reads the winner, and otherwise row and reservation are stored together. */
    method CommitAttempt(call: Call, k: nat, version: nat, no: string, ghost before: seq<Action>)
      returns (p: Phase, ghost actions: seq<Action>)
      requires k < |Attempts(call)| && Leads(store, call, no, before, Ready(k, version))
      modifies this
      ensures var stored := FindDispatch(old(store).dispatches, call.task);
        if Stale(old(store), VehicleOf(Attempts(call)[k]), version)
        then p == Attempting(k + 1) && store == old(store) && Leads(store, call, no, actions, p)
        else if stored.Some? then p == Returned(StoredResult(call, stored.value)) && store == old(store)
        else if !NumberFree(old(store), no) then p == Failed("IntegrityError") && store == old(store)
        else Creates(old(store), store, call, Attempts(call)[k], no, p)
      ensures forall a :: a in actions ==> OwnStep(a, no)
      ensures var w := Run(Alone(old(store), call, Attempting(0)), actions);
        w.store == store && w.phases == map[0 := p]
    {
      if Stale(store, VehicleOf(Attempts(call)[k]), version) {
        p := Attempting(k + 1);
        StaleLeads(store, call, before, k, version, no);
        actions := before + [CommitStale(0)];
      } else if FindDispatch(store.dispatches, call.task).Some? || NumberTaken(store.dispatches, no) {
        FreeOrTaken(store, no);
        DuplicateLeads(store, call, before, k, version, no);
        p, actions := ReadWinner(call, no, before + [CommitDuplicate(0, no)]);
      } else {
        FreeOrTaken(store, no);
        CommitLeads(store, call, before, k, version, no);
        actions := before + [Commit(0, no)];
        CommitCreates(store, call, Attempts(call)[k], no);
        var row := RowFor(call, Attempts(call)[k], |store.dispatches| + 1, no);
        store := Stored(store, row);
        p := Returned(FreshResult(call, row));
      }
    }

    /** After a rollback: the stored dispatch of the task, or the integrity error itself. */
    method ReadWinner(call: Call, no: string, ghost before: seq<Action>) returns (p: Phase, ghost actions: seq<Action>)
      requires Leads(store, call, no, before, ReadingBack)
      ensures var stored := FindDispatch(store.dispatches, call.task);
        p == if stored.Some? then Returned(StoredResult(call, stored.value)) else Failed("IntegrityError")
      ensures Leads(store, call, no, actions, p)
    {
      p := ReadBackStep(Alone(store, call, ReadingBack), call);
      LeadsOn(store, call, no, before, ReadingBack, ReadBack(0), p);
      actions := before + [ReadBack(0)];
    }
  }

  // ----- the invariant

  ghost predicate OnePerTask(rows: seq<DispatchRow>) {
    forall i, j :: 0 <= i < j < |rows| ==> rows[i].task != rows[j].task
  }

  ghost predicate OnePerVehicle(rows: seq<DispatchRow>) {
    forall i, j :: 0 <= i < j < |rows| && rows[i].targetVehicle.Some? ==> rows[i].targetVehicle != rows[j].targetVehicle
  }

  ghost predicate OnePerNumber(rows: seq<DispatchRow>) {
    forall i, j :: 0 <= i < j < |rows| ==> rows[i].dispatchNo != rows[j].dispatchNo
  }

  ghost predicate Targets(rows: seq<DispatchRow>, v: string) {
    exists i :: 0 <= i < |rows| && rows[i].targetVehicle == Some(v)
  }

  /** A vehicle has left its initial status exactly when a stored dispatch targets it, and then it was AVAILABLE. */
  ghost predicate VehicleAccounted(start: Store, store: Store, v: string)
    requires v in start.vehicles && v in store.vehicles
  {
    if Targets(store.dispatches, v)
    then start.vehicles[v].status == "AVAILABLE" && store.vehicles[v].status == "RESERVED"
    else store.vehicles[v] == start.vehicles[v]
  }

  ghost predicate FleetAccounted(start: Store, store: Store) {
    && store.vehicles.Keys == start.vehicles.Keys
    && (forall v :: v in store.vehicles ==> VehicleAccounted(start, store, v))
    && (forall i :: 0 <= i < |store.dispatches| && store.dispatches[i].targetVehicle.Some? ==>
          store.dispatches[i].targetVehicle.value in store.vehicles && store.dispatches[i].targetDriver.Some?)
  }

  /** A version once read stays below the row's, and an unchanged version means still AVAILABLE. */
  ghost predicate ReadStillGood(store: Store, call: Call, k: nat, version: nat) {
    && k < |Attempts(call)|
    && (Attempts(call)[k].Some? ==>
          VehicleOf(Attempts(call)[k]).Some? && DriverOf(Attempts(call)[k]).Some?
          && VehicleOf(Attempts(call)[k]).value in store.vehicles
          && var row := store.vehicles[VehicleOf(Attempts(call)[k]).value];
             version <= row.version && (version == row.version ==> row.status == "AVAILABLE"))
  }

  ghost predicate PhaseOk(store: Store, call: Call, p: Phase) {
    match p
    case Checked(k) => k < |Attempts(call)|
    case Ready(k, version) => ReadStillGood(store, call, k, version)
    case Returned(r) => exists row :: row in store.dispatches && row.task == call.task && r == StoredResult(call, row)
    case _ => true
  }

  ghost predicate CreatedBy(w: World, i: nat)
    requires i < |w.store.dispatches| && i < |w.creators|
  {
    var c, row := w.creators[i], w.store.dispatches[i];
    && c in w.calls && c in w.phases
    && (exists k :: 0 <= k < |Attempts(w.calls[c])| &&
          row == RowFor(w.calls[c], Attempts(w.calls[c])[k], row.id, row.dispatchNo))
    && w.phases[c] == Returned(FreshResult(w.calls[c], row))
  }

  ghost predicate Exclusive(start: Store, store: Store) {
    && OnePerTask(store.dispatches) && OnePerVehicle(store.dispatches) && OnePerNumber(store.dispatches)
    && FleetAccounted(start, store)
  }

  ghost predicate PhasesOk(w: World) {
    forall c :: c in w.phases && c in w.calls ==> PhaseOk(w.store, w.calls[c], w.phases[c])
  }

  ghost predicate CreatorsOk(w: World) {
    && |w.creators| == |w.store.dispatches|
    && forall i :: 0 <= i < |w.creators| ==> w.store.dispatches[i].id == i + 1 && CreatedBy(w, i)
  }

  ghost predicate Inv(start: World, w: World) {
    && w.calls == start.calls && w.store.tasks == start.store.tasks && w.phases.Keys == w.calls.Keys
    && Exclusive(start.store, w.store) && PhasesOk(w) && CreatorsOk(w)
  }

  function MoveTo(w: World, c: CallId, p: Phase): World {
    World(w.store, w.calls, w.phases[c := p], w.creators)
  }

  lemma MoveKeepsCreators(w: World, c: CallId, p: Phase)
    requires c in w.phases && !w.phases[c].Returned? && CreatorsOk(w)
    ensures CreatorsOk(MoveTo(w, c, p))
  {
    forall i | 0 <= i < |w.creators| ensures CreatedBy(MoveTo(w, c, p), i) { assert CreatedBy(w, i); }
  }

  /** A step that moves one unfinished call and leaves the store alone. */
  lemma PhaseStepKeeps(start: World, w: World, c: CallId, p: Phase)
    requires Inv(start, w) && c in w.phases && !w.phases[c].Returned? && PhaseOk(w.store, w.calls[c], p)
    ensures Inv(start, MoveTo(w, c, p))
  {
    MoveKeepsCreators(w, c, p);
  }

  lemma TargetsAfter(rows: seq<DispatchRow>, row: DispatchRow, v: string)
    ensures Targets(rows + [row], v) <==> Targets(rows, v) || row.targetVehicle == Some(v)
  {
    var after := rows + [row];
    assert after[|rows|] == row;
    if Targets(rows, v) {
      var i :| 0 <= i < |rows| && rows[i].targetVehicle == Some(v);
      assert after[i] == rows[i];
    }
  }

  /** The row's vehicle can be reserved for it. */
  predicate Reservable(store: Store, row: DispatchRow) {
    row.targetVehicle.Some? ==>
      row.targetVehicle.value in store.vehicles && row.targetDriver.Some?
      && store.vehicles[row.targetVehicle.value].status == "AVAILABLE"
  }

  lemma CommitKeepsFleet(start: Store, store: Store, row: DispatchRow)
    requires FleetAccounted(start, store) && Reservable(store, row)
    ensures FleetAccounted(start, Stored(store, row))
  {
    var after := Stored(store, row);
    forall v | v in after.vehicles ensures VehicleAccounted(start, after, v) {
      assert VehicleAccounted(start, store, v);
      TargetsAfter(store.dispatches, row, v);
    }
  }

  lemma CommitKeepsUnique(start: Store, store: Store, row: DispatchRow)
    requires FleetAccounted(start, store) && Reservable(store, row)
    requires OnePerVehicle(store.dispatches) && OnePerTask(store.dispatches) && OnePerNumber(store.dispatches)
    requires FindDispatch(store.dispatches, row.task).None? && !NumberTaken(store.dispatches, row.dispatchNo)
    ensures OnePerVehicle(Stored(store, row).dispatches) && OnePerTask(Stored(store, row).dispatches)
    ensures OnePerNumber(Stored(store, row).dispatches)
  {
    assert row.targetVehicle.Some? ==> VehicleAccounted(start, store, row.targetVehicle.value);
    forall i | 0 <= i < |store.dispatches| ensures store.dispatches[i].task != row.task {
      assert store.dispatches[i] in store.dispatches;
    }
  }

  lemma CommitKeepsCreators(w: World, c: CallId, k: nat, no: string)
    requires c in w.calls && c in w.phases && !w.phases[c].Returned? && k < |Attempts(w.calls[c])| && CreatorsOk(w)
    ensures CreatorsOk(CommitStep(w, c, w.calls[c], k, no))
  {
    var w' := CommitStep(w, c, w.calls[c], k, no);
    forall i | 0 <= i < |w.creators| ensures CreatedBy(w', i) && w'.store.dispatches[i] == w.store.dispatches[i] {
      assert CreatedBy(w, i);
    }
    var row := w'.store.dispatches[|w.creators|];
    assert row == RowFor(w.calls[c], Attempts(w.calls[c])[k], row.id, row.dispatchNo);
  }

  lemma CommitKeepsPhases(w: World, c: CallId, k: nat, no: string)
    requires c in w.calls && k < |Attempts(w.calls[c])| && PhasesOk(w)
    ensures PhasesOk(CommitStep(w, c, w.calls[c], k, no))
  {
  }

  /** A row version that is still the one read means the vehicle is still AVAILABLE. */
  lemma ReadyRow(store: Store, call: Call, k: nat, version: nat, id: nat, no: string)
    requires ReadStillGood(store, call, k, version) && !Stale(store, VehicleOf(Attempts(call)[k]), version)
    ensures Reservable(store, RowFor(call, Attempts(call)[k], id, no))
  {
  }

  lemma CommitKeepsStore(start: Store, store: Store, call: Call, k: nat, version: nat, id: nat, no: string)
    requires Exclusive(start, store)
    requires ReadStillGood(store, call, k, version) && !Stale(store, VehicleOf(Attempts(call)[k]), version)
    requires FindDispatch(store.dispatches, call.task).None? && !NumberTaken(store.dispatches, no)
    ensures Exclusive(start, Stored(store, RowFor(call, Attempts(call)[k], id, no)))
  {
    var row := RowFor(call, Attempts(call)[k], id, no);
    ReadyRow(store, call, k, version, id, no);
    CommitKeepsFleet(start, store, row);
    CommitKeepsUnique(start, store, row);
  }

  lemma CommitKeeps(start: World, w: World, c: CallId, no: string)
    requires Inv(start, w) && c in w.phases && w.phases[c].Ready?
    requires PhaseOk(w.store, w.calls[c], w.phases[c])
    requires !Stale(w.store, VehicleOf(Attempts(w.calls[c])[w.phases[c].k]), w.phases[c].version)
    requires FindDispatch(w.store.dispatches, w.calls[c].task).None? && !NumberTaken(w.store.dispatches, no)
    ensures Inv(start, CommitStep(w, c, w.calls[c], w.phases[c].k, no))
  {
    var call, k := w.calls[c], w.phases[c].k;
    CommitKeepsStore(start.store, w.store, call, k, w.phases[c].version, |w.store.dispatches| + 1, no);
    CommitKeepsPhases(w, c, k, no);
    CommitKeepsCreators(w, c, k, no);
  }

  lemma ApplyKeeps(start: World, w: World, a: Action)
    requires Inv(start, w)
    ensures Inv(start, Apply(w, a))
  {
    if a.c in w.calls && a.c in w.phases {
      var call, p := w.calls[a.c], w.phases[a.c];
      assert PhaseOk(w.store, call, p);
      match a
      case Commit(c, no) =>
        if Apply(w, a) != w { CommitKeeps(start, w, c, no); }
      case _ =>
        if Apply(w, a) != w {
          PhaseStepKeeps(start, w, a.c, Apply(w, a).phases[a.c]);
          assert Apply(w, a) == MoveTo(w, a.c, Apply(w, a).phases[a.c]);
        }
    }
  }

  lemma {:induction false} RunKeeps(start: World, actions: seq<Action>)
    requires Initial(start)
    ensures Inv(start, Run(start, actions))
  {
    if actions != [] {
      RunKeeps(start, actions[..|actions| - 1]);
      ApplyKeeps(start, Run(start, actions[..|actions| - 1]), actions[|actions| - 1]);
    }
  }

  // ----- what every interleaving keeps

  /** Each task has at most one dispatch, each vehicle is the target of at most one, and a vehicle's
      status has changed exactly when a stored dispatch targets it: failed attempts leave no trace. */
  lemma ReservationsAreExclusive(start: World, actions: seq<Action>)
    requires Initial(start)
    ensures var s := Run(start, actions).store;
      && OnePerTask(s.dispatches) && OnePerVehicle(s.dispatches) && OnePerNumber(s.dispatches)
      && s.vehicles.Keys == start.store.vehicles.Keys
      && forall v :: v in s.vehicles ==>
           if Targets(s.dispatches, v)
           then start.store.vehicles[v].status == "AVAILABLE" && s.vehicles[v].status == "RESERVED"
           else s.vehicles[v] == start.store.vehicles[v]
  {
    RunKeeps(start, actions);
    var s := Run(start, actions).store;
    forall v | v in s.vehicles ensures VehicleAccounted(start.store, s, v) {}
  }

  /** Every call that returns reports the one dispatch stored for its task. */
  lemma ReturnsTheStoredDispatch(start: World, actions: seq<Action>, c: CallId)
    requires Initial(start) && c in start.calls
    requires c in Run(start, actions).phases && Run(start, actions).phases[c].Returned?
    ensures var w := Run(start, actions);
      exists row :: row in w.store.dispatches && row.task == start.calls[c].task
        && w.phases[c].result == StoredResult(start.calls[c], row)
        && forall other :: other in w.store.dispatches && other.task == row.task ==> other == row
  {
    RunKeeps(start, actions);
    var w := Run(start, actions);
    assert PhaseOk(w.store, w.calls[c], w.phases[c]);
    var row :| row in w.store.dispatches && row.task == w.calls[c].task
      && w.phases[c].result == StoredResult(w.calls[c], row);
    forall other | other in w.store.dispatches && other.task == row.task ensures other == row {
      SameTaskSameRow(w.store.dispatches, row, other);
    }
  }

  lemma SameTaskSameRow(rows: seq<DispatchRow>, a: DispatchRow, b: DispatchRow)
    requires OnePerTask(rows) && a in rows && b in rows && a.task == b.task
    ensures a == b
  {
  }

  /** Two calls for one task that both return agree on everything stored. */
  lemma CallsForOneTaskAgree(start: World, actions: seq<Action>, c: CallId, d: CallId)
    requires Initial(start) && c in start.calls && d in start.calls && start.calls[c].task == start.calls[d].task
    requires c in Run(start, actions).phases && Run(start, actions).phases[c].Returned?
    requires d in Run(start, actions).phases && Run(start, actions).phases[d].Returned?
    ensures var x, y := Run(start, actions).phases[c].result, Run(start, actions).phases[d].result;
      x.dispatchId == y.dispatchId && x.dispatchNo == y.dispatchNo && x.status == y.status
        && x.targetRoute == y.targetRoute
      && x.targetVehicle == y.targetVehicle && x.targetDriver == y.targetDriver && x.executed == y.executed
      && x.version == y.version && x.requiresReview == y.requiresReview && x.originalVehicle == y.originalVehicle
    ensures var w := Run(start, actions);
      exists row :: row in w.store.dispatches && row.task == start.calls[c].task
        && (row.originalRoute != "" ==>
          w.phases[c].result.originalRoute == row.originalRoute == w.phases[d].result.originalRoute)
        && (row.reason != "" ==> w.phases[c].result.reason == row.reason == w.phases[d].result.reason)
  {
    ReturnsTheStoredDispatch(start, actions, c);
    ReturnsTheStoredDispatch(start, actions, d);
  }

  /** A stored dispatch was created by one call of the run, from one of that call's first two eligible
      candidates, and that call returned it. */
  lemma DispatchComesFromItsCreator(start: World, actions: seq<Action>, i: nat)
    requires Initial(start) && i < |Run(start, actions).store.dispatches|
    ensures var w := Run(start, actions); var row := w.store.dispatches[i];
      && i < |w.creators| && w.creators[i] in start.calls && w.creators[i] in w.phases
      && var call := start.calls[w.creators[i]];
      && w.phases[w.creators[i]] == Returned(FreshResult(call, row))
      && (row.targetVehicle.Some? ==> row.targetDriver.Some?)
      && exists k :: 0 <= k < |Attempts(call)| && row == RowFor(call, Attempts(call)[k], row.id, row.dispatchNo)
  {
    RunKeeps(start, actions);
    assert CreatedBy(Run(start, actions), i);
  }

  lemma AloneIsInitial(store: Store, call: Call)
    requires store.dispatches == []
    ensures Initial(Alone(store, call, Attempting(0)))
  {
  }

  /** A first candidate that is AVAILABLE is reserved by a call that nobody disturbs. */
  lemma LoneCallReserves(store: Store, call: Call, no: string) returns (actions: seq<Action>)
    requires call.task in store.tasks && store.dispatches == []
    requires VehicleOf(Attempts(call)[0]).Some? && DriverOf(Attempts(call)[0]).Some?
    requires IsAvailable(store, VehicleOf(Attempts(call)[0]).value)
    ensures var w, row := Run(Alone(store, call, Attempting(0)), actions), RowFor(call, Attempts(call)[0], 1, no);
      w.creators == [0] && w.store.dispatches == [row] && w.phases == map[0 := Returned(FreshResult(call, row))]
  {
    var version := store.vehicles[VehicleOf(Attempts(call)[0]).value].version;
    actions := ReadsLead(store, call, no);
    NothingStored(call.task, no);
    CommitLeads(store, call, actions, 0, version, no);
    actions := actions + [Commit(0, no)];
    FirstStored(store, call, RowFor(call, Attempts(call)[0], 1, no));
  }

  lemma NothingStored(task: string, no: string)
    ensures FindDispatch([], task).None? && !NumberTaken([], no)
  {
  }

  lemma FirstStored(store: Store, call: Call, row: DispatchRow)
    requires store.dispatches == []
    ensures var w := Committed(store, call, row);
      w.creators == [0] && w.store.dispatches == [row] && w.phases == map[0 := Returned(FreshResult(call, row))]
  {
  }

  lemma ReadsLead(store: Store, call: Call, no: string) returns (actions: seq<Action>)
    requires call.task in store.tasks && store.dispatches == []
    requires VehicleOf(Attempts(call)[0]).Some? && DriverOf(Attempts(call)[0]).Some?
    requires IsAvailable(store, VehicleOf(Attempts(call)[0]).value)
    ensures Leads(store, call, no, actions, Ready(0, store.vehicles[VehicleOf(Attempts(call)[0]).value].version))
  {
    actions := [];
    LeadsOn(store, call, no, actions, Attempting(0), Check(0), Checked(0));
    actions := actions + [Check(0)];
    LeadsOn(store, call, no, actions, Checked(0), ReadVehicle(0),
            Ready(0, store.vehicles[VehicleOf(Attempts(call)[0]).value].version));
    actions := actions + [ReadVehicle(0)];
  }

  // ----- conservation

  /** Vehicles that go from AVAILABLE to RESERVED between two worlds. */
  ghost function Moves(before: World, after: World): set<string> {
    set v | v in before.store.vehicles && v in after.store.vehicles
            && before.store.vehicles[v].status == "AVAILABLE" && after.store.vehicles[v].status == "RESERVED"
  }

  ghost function TotalMoves(start: World, actions: seq<Action>): nat {
    if actions == [] then 0
    else
      var init := actions[..|actions| - 1];
      TotalMoves(start, init) + |Moves(Run(start, init), Run(start, actions))|
  }

  function Targeted(rows: seq<DispatchRow>): nat {
    if rows == [] then 0
    else Targeted(rows[..|rows| - 1]) + (if rows[|rows| - 1].targetVehicle.Some? then 1 else 0)
  }

  lemma CommitMoves(w: World, c: CallId, call: Call, k: nat, no: string)
    requires k < |Attempts(call)|
    requires var v := VehicleOf(Attempts(call)[k]);
      v.Some? ==> v.value in w.store.vehicles && w.store.vehicles[v.value].status == "AVAILABLE"
    ensures var w' := CommitStep(w, c, call, k, no);
      Targeted(w'.store.dispatches) == Targeted(w.store.dispatches) + |Moves(w, w')|
  {
    var w', v := CommitStep(w, c, call, k, no), VehicleOf(Attempts(call)[k]);
    assert w'.store.dispatches[..|w.store.dispatches|] == w.store.dispatches;
    assert Moves(w, w') == if v.Some? then {v.value} else {};
  }

  lemma StepMoves(start: World, w: World, a: Action)
    requires Inv(start, w)
    ensures Targeted(Apply(w, a).store.dispatches) == Targeted(w.store.dispatches) + |Moves(w, Apply(w, a))|
  {
    var w' := Apply(w, a);
    if w'.store == w.store {
      assert Moves(w, w') == {};
    } else {
      assert PhaseOk(w.store, w.calls[a.c], w.phases[a.c]);
      CommitMoves(w, a.c, w.calls[a.c], w.phases[a.c].k, a.no);
    }
  }

  /** Over a whole run, the AVAILABLE to RESERVED moves are as many as the dispatches with a target vehicle. */
  lemma {:induction false} MovesEqualTargetedDispatches(start: World, actions: seq<Action>)
    requires Initial(start)
    ensures TotalMoves(start, actions) == Targeted(Run(start, actions).store.dispatches)
  {
    if actions != [] {
      var init := actions[..|actions| - 1];
      MovesEqualTargetedDispatches(start, init);
      RunKeeps(start, init);
      StepMoves(start, Run(start, init), actions[|actions| - 1]);
    }
  }
}
