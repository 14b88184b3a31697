# CountyFlow dispatch, verified model

CountyFlow dispatches vehicles in a county road network. When a road is blocked or a
vehicle breaks down it plans a route, picks a replacement vehicle, reserves it, audits the
result, lets a person review it and publishes it. This project models that core in Dafny
and proves what it promises.

| file | what it holds |
|---|---|
| `Orders.dfy`, `Options.dfy`, `Decimals.dfy` | Python's orders and `sorted`, optional values, decimals with their rounding and text form |
| `RoadNetwork.dfy` | the snapshot, walks and their cost, the state form of a snapshot |
| `Search.dfy`, `PathFinder.dfy`, `PathTheorems.dfy` | the label-setting search, the loop that runs it, the theorems about its answer |
| `Fleet.dfy`, `FleetTheorems.dfy` | eligibility, scoring, ranking and selection of replacement vehicles; the theorems on their recorded fields |
| `Reservation.dfy` | `execute` calls racing for vehicles and dispatch rows |
| `Audit.dfy`, `AuditTheorems.dfy`, `Handover.dfy` | the audit's own path check and verdict; the verdict on the fields of the evidence; allocation, dispatch and audit composed |
| `TaskLedger.dfy` | the idempotency ledger |
| `Lifecycle.dfy`, `LifecycleTheorems.dfy`, `Reachability.dfy` | audit record, status marks, review and publication; what they promise under which discipline of the worker |
| `EventBroker.dfy`, `ExecutionLock.dfy` | the bounded event broker; the token lock with expiry |
| `GraphMemory.dfy` | the in-memory graph repository and its path enumeration |

How the source's forms are kept. Loops are methods with invariants, each proved equal to a
specification function (`FindPath` to `Find`, `Allocate` to `AllocationOf`, `Enumerate` to
`Enumeration`); objects that update themselves are classes (`Broker`, `GraphRepository`,
`Services`, `Database`, `Ledger`, `Client`). Protocols are step functions over a shared
world: `Apply` is one step of one participant, `Run` folds any sequence of steps, and a
step that is not enabled changes nothing, so "every interleaving" is "every action
sequence". `Database.Execute` and `Ledger.BeginTask` are the undisturbed code of one call,
proved to be a run of the protocol around them.

Reading notes.

- Decimal arithmetic is exact over reals; `Decimal` carries the unscaled integer and the
  scale, so printing and parsing are about the real text.
- The heap is a sequence from which an entry with a least (cost, edge ids) label is taken.
  The later tuple components never decide an order: `LabelDeterminesEntry`.
- `Searchable` and `Routable` say what the path finder relies on: unique edge ids, listed
  risk levels (an unlisted one raises in the code) and no negative weight. The result is
  canonical at every such weight among walks without repeated nodes; strictly positive
  weights extend that to all walks, and `LoopPrecedes` shows a zero weight where it fails.
- Members whose names end in `OnFields` state an answer on the fields of the rows and
  arguments alone, without the predicates that compute it; `Database.Execute` and
  `Ledger.BeginTask` do the same in their own contracts (`Outcome`).
- Fresh identifiers (`uuid4`) and the clock are parameters of the actions.
- EXEC is modelled as Redis 6.0.9 and later behave (the deployment uses 8.2): it fails when
  a watched key was written or has expired since WATCH.
- Some promises depend on what the callers do, and the conditions are exact. The lifecycle
  is stated for an arbitrary `Discipline`: which status the worker replaces by which, which
  of these marks also while an audit of the task is open, and in which status it starts an
  audit. Each promise is proved to hold in all runs if and only if certain statuses cannot
  be reached by these marks (`DecidedOnceExactly`, `DecisionsStandExactly`,
  `StaysApprovedExactly`, `RejectedStaysBackExactly`), and each way to break it is a run.
  One publication per task holds for every worker. A worker that marks a status only while
  the task is PENDING or PROCESSING keeps all but one of the promises, and that one too
  unless an audit outlasts the work (`GuardedRuns`). `_set_status` and
  `_persist_if_possible` refuse nothing themselves (`UnguardedRuns`), and REJECTED is
  missing from the terminal statuses, so a redelivered message can put a rejected task back
  to REVIEW_REQUIRED, which is the run `ApprovedAfterRejection`.
- The audit's vehicle-assignment check holds on a created dispatch if and only if the
  broken-down vehicle's id is present in the workflow state (`CreatedDispatchPassesAudit`);
  `UnknownVehicleFailsTheAudit` gives an input without it.

## Model

| member | source | states |
|---|---|---|
| `PathFinder.FindPath` | backend/app/road_network/dijkstra.py:29-87 | the loop over best, heap and adjacency returns exactly `Find` |
| `PathFinder.RunSearch` | backend/app/road_network/dijkstra.py:54-87 | the main loop ends, in the final state of the search, with the entry that settles the destination and the count of settled nodes |
| `PathFinder.BuildAdjacency` | backend/app/road_network/dijkstra.py:44-52 | the adjacency lists hold the usable edges in both directions where allowed, sorted by edge id and neighbour |
| `PathFinder.RelaxNeighbour` | backend/app/road_network/dijkstra.py:70-86 | one neighbour: best and heap change exactly as `Relax` says |
| `PathFinder.Expand` | backend/app/road_network/dijkstra.py:69-86 | relaxing the neighbours one by one equals the fold of `Relax` |
| `PathFinder.SettlingRound` | backend/app/road_network/dijkstra.py:61-87 | a round that settles a node settles a new one, keeps the invariant and shrinks the unsettled nodes |
| `PathFinder.QueryValid` | backend/app/road_network/dijkstra.py:44-52 | the arcs listed for a node are exactly the ways to leave it over a usable edge |
| `Search.LeastIndex` | backend/app/road_network/dijkstra.py:62 | the popped entry has a least label in the heap |
| `Search.ExtendGrows` | backend/app/road_network/dijkstra.py:70-72 | one more edge always gives a larger label, also at weight zero |
| `Search.ExtendMonotone` | backend/app/road_network/dijkstra.py:70-72 | a smaller label stays smaller after one more edge, unless the larger one merely continues it at no cost |
| `Search.NoFreeDetour` | backend/app/road_network/dijkstra.py:70-75 | a walk without repeated nodes, or any walk at positive weights, never continues another walk to its own end at no cost |
| `Search.LabelDeterminesEntry` | backend/app/road_network/dijkstra.py:56-62 | two heap entries with one label are the same entry |
| `Search.SettledStays` | backend/app/road_network/dijkstra.py:63-75 | a settled node is never relabelled, so never settled twice |
| `Search.SuccessorFolds` | backend/app/road_network/dijkstra.py:76-86 | cost, distance and risk carried through the heap are the folds over the edges of the walk |
| `Search.ExpandKeeps` | backend/app/road_network/dijkstra.py:61-86 | expanding a popped entry keeps the search invariant |
| `Search.Final` | backend/app/road_network/dijkstra.py:61-87 | the loop terminates in a state that satisfies the invariant and is over |
| `Search.WalkCostBound` | backend/app/road_network/dijkstra.py:61-87 | every walk costs at least the popped label, or ends at a settled node labelled no dearer |
| `Search.WalkLabelBound` | backend/app/road_network/dijkstra.py:61-87 | the same in the (cost, edge ids) order: for walks without repeated nodes at every weight, for all walks at positive weights |
| `PathTheorems.FindsPathIffJoined` | backend/app/road_network/dijkstra.py:38-87 | a path is returned exactly when both endpoints are known and a usable walk joins them |
| `PathTheorems.FoundPathIsCheapest` | backend/app/road_network/dijkstra.py:61-87 | for every objective the path is a usable walk without repeated nodes and no usable walk costs less |
| `PathTheorems.FoundPathIsCanonical` | backend/app/road_network/dijkstra.py:63-75 | at every weight, zero included, the path is least in the (cost, edge ids) order among the usable walks without repeated nodes; at positive weights among all usable walks |
| `PathTheorems.FreeCyclePrecedes` | backend/app/road_network/dijkstra.py:70-75 | among walks with repeated nodes the path is not least at weight zero: a free edge from the start to itself with a smaller id gives a smaller walk |
| `PathTheorems.LoopPrecedes` | backend/app/road_network/dijkstra.py:44-86 | on a network of a free loop at the start and a road to the goal the path takes the road, and the walk over the loop precedes it |
| `PathTheorems.LoopBesideRoadExists` | backend/app/road_network/dijkstra.py:44-52 | such a network, as a concrete snapshot and query |
| `PathTheorems.VisitedCountIsNearby` | backend/app/road_network/dijkstra.py:59-68 | the visited count is the number of nodes whose best label is at most the destination's, over walks without repeated nodes at every weight and over all walks at positive weights |
| `PathTheorems.ResultIgnoresListingOrder` | backend/app/road_network/dijkstra.py:44-86 | the whole result, visited count included, is independent of the order of nodes and edges, zero weights included |
| `PathTheorems.FoundFiguresAreFolds` | backend/app/road_network/dijkstra.py:66-99 | distance, minutes and risk of the result are the rounded folds over its edges |
| `PathTheorems.FoundPathOnFields` | backend/app/road_network/dijkstra.py:29-93 | a path is found exactly when a walk over the listed edges joins known endpoints whose edges all have a limit of at least the weight, a status other than BLOCKED and an id not excluded; the found path is one and none is cheaper |
| `PathTheorems.CostsAreTotals` | backend/app/road_network/dijkstra.py:8-21 | the objectives minimise kilometres, base minutes times congestion, and these minutes plus 4 per MEDIUM and 12 per HIGH edge |
| `PathTheorems.FiguresOnFields` | backend/app/road_network/dijkstra.py:41-42 | distance, minutes and risk of a result are the rounded totals over its edges; a trip to its own start visits nothing |
| `PathTheorems.FoundIdsAreLeast` | backend/app/road_network/dijkstra.py:72-75 | among equally cheap drivable walks without repeated nodes the path has the least edge ids |
| `PathTheorems.ObjectivesKeepTheirPromise` | backend/app/road_network/dijkstra.py:11-25 | after rounding, FASTEST shows no more minutes and SHORTEST no more kilometres than any other objective |
| `PathTheorems.RestrictingNeverHelps` | backend/app/road_network/dijkstra.py:89-93 | excluding more edges or a heavier vehicle never opens a path and never lowers the best cost |
| `PathTheorems.RestoredSnapshotFindsTheSame` | backend/app/road_network/service.py:51-83 | a captured and restored snapshot answers every query alike |
| `RoadNetwork.UsableEdges` | backend/app/road_network/dijkstra.py:45-47 | exactly the available edges remain |
| `RoadNetwork.UsableNetMembers` | backend/app/road_network/dijkstra.py:89-93 | the usable network is the available part of the network by edge id |
| `RoadNetwork.NodesDetermined` | backend/app/road_network/dijkstra.py:69-82 | from a given start the edge ids determine the nodes of a walk |
| `RoadNetwork.SafestCostSplits` | backend/app/road_network/dijkstra.py:11-21 | the SAFEST cost of a walk is its FASTEST cost plus its risk cost |
| `RoadNetwork.RestoreUndoesToState` | backend/app/road_network/service.py:17-83 | restoring a captured snapshot gives it back, at every decimal scale |
| `RoadNetwork.EdgeStateOnFields` | backend/app/road_network/service.py:17-47 | every field of an edge stands under its own name in the state, and its decimals read back |
| `Decimals.PrintParse` | backend/app/road_network/service.py:25-26 | printing a decimal in fixed point and parsing it gives it back |
| `Decimals.RoundHalfUp` | backend/app/road_network/dijkstra.py:24-25 | the nearest integer, ties away from zero |
| `Decimals.Ceiling` | backend/app/road_network/dijkstra.py:99 | the least integer not below |
| `Decimals.QuantizeExact` | backend/app/road_network/dijkstra.py:24-25 | rounding to the scale a value already has changes nothing |
| `Decimals.QuantizeMonotone` | backend/app/road_network/dijkstra.py:24-25 | rounding keeps the order |
| `Decimals.QuantizeNearest` | backend/app/road_network/dijkstra.py:24-25 | rounding goes to the nearest multiple of the last place, ties away from zero |
| `Orders.SortedIsSortedPermutation` | backend/app/fleet/service.py:86-90 | sorting yields a sorted permutation |
| `Orders.SortedUnique` | backend/app/fleet/service.py:86-90 | with distinct keys the sorted order is unique |
| `Orders.StringLessMeaning` | backend/app/fleet/service.py:86-90 | text is ordered by the code point at the first difference, and a proper prefix comes first |
| `Fleet.EstimateIffCanDrive` | backend/app/fleet/service.py:54-55 | an estimate exists exactly when the vehicle can drive between known nodes |
| `Fleet.IsWeightRestricted` | backend/app/fleet/service.py:61-70 | no path at this weight, and one at weight zero |
| `Fleet.WeightRestrictionExact` | backend/app/fleet/service.py:61-70 | holds exactly when a weightless vehicle has a walk and this one has none, and stays true for heavier ones |
| `Fleet.RiskLevelMeaning` | backend/app/fleet/service.py:219-224 | LOW exactly when all edges are LOW; HIGH exactly with a HIGH edge or three MEDIUM ones |
| `Fleet.CollectCheapReasons` | backend/app/fleet/service.py:147-165 | the reasons are collected in the order of the rules |
| `Fleet.CheapReasonsExact` | backend/app/fleet/service.py:147-171 | no reason is recorded exactly when all paper rules are met |
| `Fleet.EvaluateVehicle` | backend/app/fleet/service.py:106-145 | evaluates both legs, collects all reasons and the score |
| `Fleet.BetterNeverScoresLess` | backend/app/fleet/service.py:120-129 | a vehicle better or equal in every scored respect never scores less, rounding included |
| `Fleet.EligibleExactly` | backend/app/fleet/service.py:106-171 | eligible exactly when the paper rules hold and walks able to carry the weight reach incident and destination |
| `Fleet.Allocate` | backend/app/fleet/service.py:78-104 | evaluating, splitting, sorting and selecting equals `AllocationOf` |
| `Fleet.AllocationIsRankedFleet` | backend/app/fleet/service.py:85-91 | the output is a permutation of the fleet, eligible first in rank order, the rest by id |
| `Fleet.SelectionIsUniqueTop` | backend/app/fleet/service.py:86-104 | one is selected exactly when a suitable one exists, and it beats every other suitable one on (score, ETA, id) |
| `Fleet.AllocationIgnoresProviderOrder` | backend/app/fleet/service.py:85-104 | the allocation does not depend on the order of the provider |
| `FleetTheorems.EligibleOnFields` | backend/app/fleet/service.py:106-171 | eligible exactly when the rules hold on the fields of vehicle, driver and request, and both legs lead over open edges whose limits are at least its gross weight |
| `FleetTheorems.EvaluateOnFields` | backend/app/fleet/service.py:106-145 | the record of a vehicle: its own fields, the drivable pickup path, its minutes and score, and the reasons of rules and legs in order |
| `FleetTheorems.CheapReasonsOnFields` | backend/app/fleet/service.py:147-165 | one reason per broken rule, in the order of the rules |
| `FleetTheorems.ScoreByFields` | backend/app/fleet/service.py:120-129 | the score is 100 less 1.5 per minute, 2 per kilometre, 20 times the load share and 0, 6 or 15 for risk, plus 8 at the incident and 10 for the exact cargo, rounded to one place |
| `FleetTheorems.LoadFits` | backend/app/fleet/models.py:31-33 | current load plus cargo of an eligible vehicle stays within its maximum, up to half a hundredth |
| `FleetTheorems.SelectedIsBest` | backend/app/fleet/service.py:86-104 | no other eligible vehicle has a higher score, at equal score an earlier arrival, or at equal both a smaller id than the selected one |
| `FleetTheorems.NothingSelected` | backend/app/fleet/service.py:92-93 | without an eligible vehicle nothing is selected and the result says NO_REPLACEMENT_VEHICLE |
| `FleetTheorems.ListedInOrder` | backend/app/fleet/service.py:86-91 | of two eligible entries the one listed first is ahead by score, arrival and id; rejected ones follow by id |
| `Reservation.Database.Execute` | backend/app/dispatch/service.py:53-79 | unknown task: error; stored dispatch: returned; otherwise the first of two eligible candidates that is AVAILABLE with a driver is reserved and its row stored, a conflict when there is none, a row without vehicle when none is eligible; and this is a run of the protocol by its own steps |
| `Reservation.Database.ReadAttempt` | backend/app/dispatch/service.py:103-118 | the reads of an attempt end in an answer, an error, the next attempt or a vehicle version to commit against |
| `Reservation.Database.CommitAttempt` | backend/app/dispatch/service.py:143-206 | a changed vehicle row ends the attempt, a taken unique key rolls back and reads the winner, and otherwise the row and the reservation are stored together |
| `Reservation.Database.ReadWinner` | backend/app/dispatch/service.py:213-234 | after a rollback the stored dispatch of the task is returned, or the integrity error |
| `Reservation.Attempts` | backend/app/dispatch/service.py:53-54 | one or two attempts, each an eligible candidate of the call, or a single one without candidate when none is eligible |
| `Reservation.AttemptsAreTheFirstTwo` | backend/app/dispatch/service.py:53-54 | they are the first and the second eligible candidate in the order of the list |
| `Reservation.ChosenIsTheFirstObtainable` | backend/app/dispatch/service.py:54-79 | the attempt that goes through is the first of the first two eligible candidates that is AVAILABLE with a driver |
| `Reservation.RowOnFields` | backend/app/dispatch/service.py:120-142 | the stored row on the arguments of the call; its status tells review, reroute and kept route apart |
| `Reservation.ResultOnFields` | backend/app/dispatch/service.py:236-260 | what a call reports about a stored row: executed unless it waits for review |
| `Reservation.FreshIsStored` | backend/app/dispatch/service.py:177-192 | the creator's answer is what any later call reads back |
| `Reservation.ApplyKeeps` | backend/app/dispatch/service.py:103-211 | every step of every call keeps the invariant |
| `Reservation.ReservationsAreExclusive` | backend/app/dispatch/service.py:103-211 | in every interleaving: one dispatch per task, per vehicle and per number, and a vehicle's row has changed exactly when a stored dispatch targets it |
| `Reservation.MovesEqualTargetedDispatches` | backend/app/dispatch/service.py:114-118 | the AVAILABLE to RESERVED moves of a run are as many as its dispatches with a vehicle |
| `Reservation.ReturnsTheStoredDispatch` | backend/app/dispatch/service.py:193-260 | every call that returns reports the one dispatch stored for its task |
| `Reservation.CallsForOneTaskAgree` | backend/app/dispatch/service.py:104-110 | calls for one task agree on every stored field: id, number, status, version, target route, vehicles, driver, and on the original route and reason wherever the row has them |
| `Reservation.DispatchComesFromItsCreator` | backend/app/dispatch/service.py:53-79 | a stored dispatch comes from one of its creator's first two eligible candidates, and the creator returned it |
| `Reservation.LoneCallReserves` | backend/app/dispatch/service.py:103-192 | a call nobody disturbs reserves its first candidate if that one is AVAILABLE |
| `Audit.PathConnects` | backend/app/audit/service.py:488-512 | true exactly when the listed nodes and edges form a non-empty walk over the rows |
| `Audit.ConnectsExactlyWalks` | backend/app/audit/service.py:488-531 | on the rows of a network: exactly its non-empty walks over named nodes and edges, one-way edges respected |
| `Audit.PathAvoidsBlocked` | backend/app/audit/service.py:148 | disjoint from the blocked ids and every edge open |
| `Audit.FoundPathPassesAudit` | backend/app/audit/service.py:137-156 | a found path is connected, avoids the excluded ids, and is open exactly when its statuses are allowed |
| `Audit.FoundPathIsOpen` | backend/app/audit/service.py:137-156 | with documented statuses and named nodes and edges a found path passes all three checks |
| `Audit.Judge` | backend/app/audit/service.py:73-203 | the chain of early returns approves exactly when every check that applies holds; a rejection names the first failing check, and a check reported as failed did fail |
| `Audit.Evaluate` | backend/app/audit/service.py:64-203 | review, approval or rejection, each exactly under its condition on the evidence; a rejection names the first failing check |
| `AuditTheorems.TakeoverOnFields` | backend/app/audit/service.py:83-135 | a breakdown passes exactly when the first entry carrying the dispatched id is eligible without reasons, AVAILABLE with a driver ON_DUTY or AVAILABLE, can take the parsed cargo weight and cold chain, is the selected one with its driver, and differs from the known original vehicle |
| `AuditTheorems.PathOnFields` | backend/app/audit/service.py:137-156 | a path passes exactly when it is not empty and on every step the last row of the edge leads on, is OPEN, CONGESTED or RESTRICTED, and the edge is not blocked |
| `AuditTheorems.VerdictOnFields` | backend/app/audit/service.py:64-203 | review exactly for MANUAL_REVIEW, a requested review or one of three error codes; approval exactly when takeover, path, decision, adopted memory and fallback reason hold on the fields; rejection otherwise |
| `AuditTheorems.OverloadIsRejected` | backend/app/audit/service.py:118-135 | a breakdown whose dispatched vehicle cannot take the load is rejected |
| `Handover.LookupFinds` | backend/app/audit/service.py:462-473 | looking the reserved vehicle up finds its own entry |
| `Handover.ReservedCandidatePassesAudit` | backend/app/audit/service.py:86-123 | for either attempt the capacity check holds, and the assignment check exactly when the broken-down vehicle is known |
| `Handover.CreatedDispatchPassesAudit` | backend/app/agents/dispatch.py:77-85 | in every interleaving, on the state after the creating call: capacity check holds, assignment check exactly when the broken-down vehicle is known |
| `Handover.SelectedVehicleIsReserved` | backend/app/agents/dispatch.py:77-85 | with a suitable vehicle and an AVAILABLE fleet, an undisturbed call dispatches exactly the selected vehicle and the audit accepts it exactly when the broken-down vehicle is known |
| `Handover.UnknownVehicleFailsTheAudit` | backend/app/audit/service.py:86-123 | an input without the broken-down vehicle's id for which a vehicle is reserved and the assignment check fails |
| `Handover.AllocationRecords` | backend/app/agents/capacity.py:130-162 | the candidate list names each vehicle once and records status, driver, load and capability of the eligible ones as required |
| `Handover.RouteCheckAfterDispatch` | backend/app/audit/service.py:161-179 | on a fresh dispatch without review: reroute passes exactly with a recommended route, keep-route exactly without a different one, and any other decision passes |
| `Handover.UnsafeRouteIsNotExecuted` | backend/app/audit/service.py:157-159 | a no-safe-route decision is stored for review and not executed |
| `Handover.CreatedDispatchVerdict` | backend/app/audit/service.py:64-203 | from breakdown to verdict, in every interleaving: on the dispatch a call created and a path that was found, the audit approves if and only if no review is asked for, the broken-down vehicle is known, the routes agree, and memory and fallback are accounted for |
| `TaskLedger.Ledger.BeginTask` | backend/app/idempotency/service.py:63-122 | a new pair is recorded as PENDING with one thread and one event and answered NEW; a stored pair is answered from its row, another partner is a conflict, and both leave the tables alone; and this is a run of the protocol by its own steps |
| `TaskLedger.AnswerReads` | backend/app/idempotency/service.py:167-181 | terminal in APPROVED, COMPLETED, DLQ, FAILED and REVIEW_REQUIRED, in progress in all other statuses, conflict when id or key is stored with another partner |
| `TaskLedger.Ledger.FlushRows` | backend/app/idempotency/service.py:68-113 | task row, thread and creation event are all flushed, or everything is rolled back |
| `TaskLedger.ApplyKeeps` | backend/app/idempotency/service.py:63-175 | every step of every call keeps the ledger invariant |
| `TaskLedger.LedgerIsOneToOne` | backend/app/idempotency/service.py:68-113 | task ids and keys stay one to one, each task with exactly one thread and one creation event |
| `TaskLedger.ExactlyOneNew` | backend/app/idempotency/service.py:114-122 | for every created pair exactly one call answers NEW |
| `TaskLedger.AnswersNameTheirPair` | backend/app/idempotency/service.py:167-181 | every answer is about the caller's own pair, and NEW means it is recorded |
| `Lifecycle.Services.Publish` | backend/app/publications/service.py:63-124 | the checks in order, the missing order row included, and the one row it may insert |
| `Lifecycle.PublishOnFields` | backend/app/publications/service.py:63-124 | every answer of publish exactly on the rows; a publication carries the target route when there is one and the original route otherwise |
| `Lifecycle.Services.Decide` | backend/app/reviews/service.py:53-122 | the reason is checked first; then the checks in order, the version conflict, and task, dispatch and audit row of a decision with the stored reason |
| `Lifecycle.DecideOnFields` | backend/app/reviews/service.py:56-106 | every answer of decide exactly on the rows, and what a decision writes |
| `Lifecycle.ReasonOnFields` | backend/app/reviews/service.py:113-122 | which reasons are refused, and the reason that is stored |
| `Lifecycle.StrippedSpan` | backend/app/reviews/service.py:113-122 | the reason is measured after taking white space, and nothing else, off both ends |
| `Lifecycle.Services.SetStatus` | backend/app/idempotency/service.py:155-165 | sets the status of an existing task unconditionally |
| `LifecycleTheorems.ApplySteps` | backend/app/audit/service.py:216-238 | every action of every participant takes each task at most one step: mark, decide, open, insert or close an audit, publish |
| `LifecycleTheorems.StepKeeps` | backend/app/reviews/service.py:61-98 | whatever the discipline, every step keeps what the marks can reach: where an undecided task is, from which decision a decided one came, where an audit can be open, and what can stand behind a decision |
| `LifecycleTheorems.PublishedAtMostOnce` | backend/app/publications/service.py:68-72 | in every run of any worker a task has at most one publication |
| `LifecycleTheorems.DecidedOnceExactly` | backend/app/reviews/service.py:61-98 | at most one decision per task in all runs, if and only if marks do not lead from PENDING to REVIEW_REQUIRED and from APPROVED or REJECTED back to it |
| `LifecycleTheorems.DecisionsStandExactly` | backend/app/reviews/service.py:76-98 | a decision agrees with its task and dispatch in all runs, if and only if no reviewed task can be marked from APPROVED or REJECTED to another status |
| `LifecycleTheorems.StaysApprovedExactly` | backend/app/publications/service.py:83-90 | the newest audit record of a published dispatch is and stays APPROVED in all runs, if and only if a published task cannot reach REVIEW_REQUIRED again and no audit can still be open at REVIEW_REQUIRED, APPROVED or COMPLETED |
| `LifecycleTheorems.RejectedStaysBackExactly` | backend/app/publications/service.py:83-90 | a rejected task is never published in all runs, if and only if neither a published task can reach REVIEW_REQUIRED again nor a rejected one be approved again, by the reviewer or by a late audit |
| `LifecycleTheorems.SafeExactly` | backend/app/publications/service.py:63-124 | all four facts together, with their exact condition |
| `LifecycleTheorems.DecidedTwice` | backend/app/idempotency/service.py:155-165 | the run behind the first condition: decided, brought back, decided again |
| `LifecycleTheorems.Overwritten` | backend/app/idempotency/service.py:155-165 | decided and marked with another status |
| `LifecycleTheorems.RecalledAfterApproval` | backend/app/idempotency/service.py:155-165 | approved, published, brought back and rejected |
| `LifecycleTheorems.RecalledAfterAudit` | backend/app/audit/service.py:216-238 | approved by an audit, marked, published, brought back and rejected |
| `LifecycleTheorems.OutlastedAtReview` | backend/app/audit/service.py:216-238 | an audit open during review inserts its rejection behind the publication |
| `LifecycleTheorems.OutlastedAtPublication` | backend/app/audit/service.py:216-238 | of two overlapping audits one approves and the other rejects behind the publication |
| `LifecycleTheorems.ApprovedAfterRejection` | backend/app/idempotency/service.py:155-165 | rejected, brought back, approved and published |
| `LifecycleTheorems.AuditedAfterRejection` | backend/app/audit/service.py:216-238 | rejected, then approved by an audit that was open, marked and published |
| `LifecycleTheorems.GuardedRuns` | backend/app/publications/service.py:63-124 | a worker that marks a status only while PENDING or PROCESSING: one publication, one decision, which stands, nothing rejected is published, and the newest record stays APPROVED unless an audit can outlast the work |
| `LifecycleTheorems.CarefulRuns` | backend/app/audit/service.py:216-238 | such a worker is safe in all four respects when it audits only then and, during an audit, sets none of REVIEW_REQUIRED, APPROVED and COMPLETED |
| `LifecycleTheorems.UnguardedRuns` | backend/app/idempotency/service.py:155-165 | a worker that refuses no mark breaks every promise but the single publication |
| `EventBroker.Broker.Publish` | backend/app/events/broker.py:150-156 | numbers the event, appends it to the bounded history, offers it to the task's queues |
| `EventBroker.Broker.ReadHistory` | backend/app/events/broker.py:166-173 | the retained events behind the named one, or all |
| `EventBroker.Broker.Subscribe` | backend/app/events/broker.py:158-164 | a new queue with the replayed history |
| `EventBroker.Broker.Read` | backend/app/events/broker.py:28-29 | takes the oldest waiting event |
| `EventBroker.Broker.Unsubscribe` | backend/app/events/broker.py:175-181 | drops the queue |
| `EventBroker.OfferAllKeepsRecent` | backend/app/events/broker.py:190-199 | drop-oldest offering keeps the most recent events, or all of them in an unbounded queue |
| `EventBroker.HistoryIsTheRecentLog` | backend/app/events/broker.py:150-153 | history is the last events published, numbered consecutively up to the publish count |
| `EventBroker.NumberingNeedsHistory` | backend/app/events/broker.py:150-153 | the latest number is the publish count in all runs if and only if the history size is at least one |
| `EventBroker.ReplayIsEverythingBehind` | backend/app/events/broker.py:166-173 | replay after any event ever published is exactly the retained events with a larger number, evicted or not |
| `EventBroker.QueueIsARunToTheLatest` | backend/app/events/broker.py:154-164 | a queue, bounded or not, is a consecutive run ending at the latest event |
| `EventBroker.ReaderMissesOnlyOverflow` | backend/app/events/broker.py:28-29 | readers see increasing numbers and miss one only through overflow |
| `ExecutionLock.Client.Acquire` | backend/app/locks/redis_execution_lock.py:38-45 | acquired exactly when no live lock exists |
| `ExecutionLock.Client.CompareAndWrite` | backend/app/locks/redis_execution_lock.py:51-85 | extends or deletes exactly when the live value is the handle's token |
| `ExecutionLock.ApplyKeeps` | backend/app/locks/redis_execution_lock.py:38-85 | every step of every client keeps the lock invariant |
| `ExecutionLock.AtMostOneHolder` | backend/app/locks/redis_execution_lock.py:38-85 | who believes to hold a key does, and nobody else believes so |
| `ExecutionLock.OnlyTheOwnerTouchesALiveLock` | backend/app/locks/redis_execution_lock.py:55-79 | a live lock is changed only by a transaction of its own token |
| `ExecutionLock.HolderIsNotDisturbed` | backend/app/locks/redis_execution_lock.py:51-85 | no other client can make a holder's renewal or release fail: GET answers its token and EXEC goes through |
| `ExecutionLock.LeaseIsLastAttempt` | backend/app/locks/redis_execution_lock.py:47-67 | a client that attempts its renewals at most interval plus delay apart has a lease of one time to live from its last attempt |
| `ExecutionLock.PunctualHolderIsNeverDisplaced` | backend/app/locks/redis_execution_lock.py:47-67 | so it keeps the lock from acquisition to release, in every interleaving |
| `ExecutionLock.RenewalMargin` | backend/app/locks/redis_execution_lock.py:47-49 | two thirds of the time to live are left for the delay, from three milliseconds on |
| `ExecutionLock.LateHolderCanBeDisplaced` | backend/app/locks/redis_execution_lock.py:38-45 | after the lease any newcomer gets the key |
| `GraphMemory.GraphRepository.Seed` | backend/app/graph_memory/fake_repository.py:12-18 | every given entity and both ends of every relation replace what was stored under their keys, relations replace or append, and relations keep both ends present |
| `GraphMemory.PutAllKeeps` | backend/app/graph_memory/fake_repository.py:15-18 | seeding leaves the relation given last under each key and every stored one whose key was not given |
| `GraphMemory.KeysTellTypes` | backend/app/graph_memory/fake_repository.py:18 | between the same ends, relations have one key exactly when they have one type |
| `GraphMemory.SeedKeepsBothTypes` | backend/app/graph_memory/fake_repository.py:15-18 | two relations of different types between the same ends are both kept |
| `GraphMemory.EndsAreEntities` | backend/app/graph_memory/fake_repository.py:12-18 | seeding entities and relations stores the entities given and then both ends of each relation |
| `GraphMemory.LastEntityWins` | backend/app/graph_memory/fake_repository.py:13-17 | the entity given last under a key is the one stored |
| `GraphMemory.GraphRepository.FindRelated` | backend/app/graph_memory/fake_repository.py:30-37 | the relations touching a given entity, by key, cut off as Python slices, negative limits included |
| `GraphMemory.RelatedExact` | backend/app/graph_memory/fake_repository.py:30-37 | the uncut answer is exactly the touching relations, once each, in key order |
| `GraphMemory.GraphRepository.Enumerate` | backend/app/graph_memory/fake_repository.py:47-72 | the cut-off loop returns the first paths of the full enumeration |
| `GraphMemory.GraphRepository.FindPaths` | backend/app/graph_memory/fake_repository.py:39-72 | the two errors, the unknown start, and otherwise the bounded enumeration |
| `GraphMemory.BranchesAreExtensions` | backend/app/graph_memory/fake_repository.py:55-71 | one expansion yields exactly the simple one-step extensions |
| `GraphMemory.ExpansionShrinks` | backend/app/graph_memory/fake_repository.py:49-71 | expanding the front of the queue lowers its weight |
| `GraphMemory.AllPathsExact` | backend/app/graph_memory/fake_repository.py:47-72 | the enumeration lists every simple path of 1 to the hop limit exactly once, shortest first and within one length by relation keys |
| `GraphMemory.PathsIgnoreSeedingOrder` | backend/app/graph_memory/fake_repository.py:12-18 | the enumeration does not depend on the order in which relations were seeded |
| `GraphMemory.BoundedAnswerIsSound` | backend/app/graph_memory/fake_repository.py:39-72 | an answer holds at most the limit of such paths, each once, in that order |
| `GraphMemory.BoundedAnswerIsExact` | backend/app/graph_memory/fake_repository.py:39-72 | a path is missing only from a full answer, and then comes behind everything in it |

## Left out

- `Decimals.Parse`: reads plain fixed-point text only; exponents, underscores, white space, infinities and the sign of zero are not modelled.
- Decimal arithmetic is exact; the 28-digit context rounding of Python's `Decimal` is not modelled.
- `Fleet.Evaluate`: the candidate record leaves out the pickup distance, which repeats the pickup route's.
- `Reservation.Apply`: flush and commit of one attempt are one step, since the row locks of the flush hold until the commit; evidence rows, which are inserted in the same transaction, are left out.
- `Reservation.DispatchComesFromItsCreator`: a commit that succeeds although its acknowledgement is lost (row stored, call fails) is not modelled, so "the creator returned it" holds without that event.
- `TaskLedger.ExactlyOneNew`: the same lost acknowledgement of a commit is not modelled, so the one NEW answer is for calls that learn of their commit.
- `EventBroker.Broker.Unsubscribe`: the subscription object's own queue, which a holder could still drain after unsubscribing, ends with the subscription here.
- `EventBroker.State`: subscriptions are keyed by task and subscription id in one map; empty per-task dictionaries are not represented.
- `Lifecycle.Services.Decide`: the reviewer and the time of a decision are left out; whether the dispatch row was changed meanwhile is a parameter.
- `Lifecycle.AfterDecide`: an action `Deciding` stands for a call with an acceptable reason, since a refused reason changes nothing.
- `Lifecycle.Services.Publish`: the instruction text and the publisher's identity are left out; whether the order row exists is a parameter.
- The recommended path is not claimed to carry the vehicle finally reserved: routing uses the first candidate's weight and dispatch may fall back to the second.
- `RedisTaskEventBroker`, whose history compares stream ids as text, and all transports, clients and persistence engines.
- Routing scores, capacity thresholds, issue classification, evidence compaction, event visibility: single-branch rules or field filtering.
- Web API, authentication, settings, observability, migrations, seeds, scripts and the frontend.
