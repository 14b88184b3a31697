/** The road network snapshot, what a walk over it is and costs, and the state
    form in which a snapshot travels between workflow nodes. */
module RoadNetwork {
  import opened Options
  import opened Decimals

  type NodeId = string
  type EdgeId = string

  datatype Objective = Fastest | Shortest | Safest

  datatype RoadNode = RoadNode(nodeId: NodeId, name: string, x: Decimal, y: Decimal, nodeType: string)

  datatype RoadEdge = RoadEdge(
    edgeId: EdgeId, name: string, fromNode: NodeId, toNode: NodeId,
    distance: Decimal, baseMinutes: int, roadLevel: string, riskLevel: string, status: string,
    congestion: Decimal, weightLimit: Decimal, bidirectional: bool, version: int)

  datatype Snapshot = Snapshot(version: int, nodes: seq<RoadNode>, edges: seq<RoadEdge>)

  datatype PathResult = PathResult(
    objective: Objective, nodeIds: seq<NodeId>, edgeIds: seq<EdgeId>,
    distance: Decimal, minutes: int, riskCost: int, visited: nat)

  // ----- edges

  const RISK_PENALTIES: map<string, nat> := map["LOW" := 0, "MEDIUM" := 4, "HIGH" := 12]

  /** The penalty table; an unlisted level has none here (the code raises, so callers require known levels). */
  function RiskPenalty(e: RoadEdge): nat {
    if e.riskLevel in RISK_PENALTIES then RISK_PENALTIES[e.riskLevel] else 0
  }

  function TravelMinutes(e: RoadEdge): real {
    e.baseMinutes as real * e.congestion.Value()
  }

  function Weight(e: RoadEdge, objective: Objective): real {
    match objective
    case Shortest => e.distance.Value()
    case Fastest => TravelMinutes(e)
    case Safest => TravelMinutes(e) + RiskPenalty(e) as real
  }

  predicate Available(e: RoadEdge, vehicleWeight: real, excluded: set<EdgeId>) {
    e.edgeId !in excluded && e.status != "BLOCKED" && vehicleWeight <= e.weightLimit.Value()
  }

  /** Edge `e` may be driven from `u` to `v`; one-way edges only forwards. */
  predicate Crosses(e: RoadEdge, u: NodeId, v: NodeId) {
    (e.fromNode == u && e.toNode == v) || (e.bidirectional && e.toNode == u && e.fromNode == v)
  }

  ghost predicate UniqueIds(edges: seq<RoadEdge>) {
    forall i, j :: 0 <= i < j < |edges| ==> edges[i].edgeId != edges[j].edgeId
  }

  type Net = map<EdgeId, RoadEdge>

  /** {edge.edge_id: edge for edge in edges}: a later edge replaces an earlier one. */
  function ById(edges: seq<RoadEdge>): Net {
    if edges == [] then map[]
    else var e := edges[|edges| - 1]; ById(edges[..|edges| - 1])[e.edgeId := e]
  }

  lemma {:induction false} ByIdMembers(edges: seq<RoadEdge>)
    ensures forall id :: id in ById(edges) ==> ById(edges)[id] in edges && ById(edges)[id].edgeId == id
    ensures forall e :: e in edges ==> e.edgeId in ById(edges)
    ensures UniqueIds(edges) ==> forall e :: e in edges ==> ById(edges)[e.edgeId] == e
  {
    if edges != [] {
      ByIdMembers(edges[..|edges| - 1]);
      assert edges == edges[..|edges| - 1] + [edges[|edges| - 1]];
    }
  }

  function UsableEdges(edges: seq<RoadEdge>, vehicleWeight: real, excluded: set<EdgeId>): (r: seq<RoadEdge>)
    ensures forall e :: e in r <==> e in edges && Available(e, vehicleWeight, excluded)
    ensures UniqueIds(edges) ==> UniqueIds(r)
  {
    if edges == [] then []
    else
      var init, e := edges[..|edges| - 1], edges[|edges| - 1];
      assert edges == init + [e];
      assert UniqueIds(edges) ==> UniqueIds(init) && forall x :: x in init ==> x.edgeId != e.edgeId;
      UsableEdges(init, vehicleWeight, excluded) + if Available(e, vehicleWeight, excluded) then [e] else []
  }

  /** The part of the network a vehicle of this weight may use. */
  function UsableNet(s: Snapshot, vehicleWeight: real, excluded: set<EdgeId>): Net {
    ById(UsableEdges(s.edges, vehicleWeight, excluded))
  }

  lemma UsableNetMembers(s: Snapshot, vehicleWeight: real, excluded: set<EdgeId>)
    requires UniqueIds(s.edges)
    ensures forall id :: id in UsableNet(s, vehicleWeight, excluded) <==>
              id in ById(s.edges) && Available(ById(s.edges)[id], vehicleWeight, excluded)
    ensures forall id :: id in UsableNet(s, vehicleWeight, excluded) ==>
              UsableNet(s, vehicleWeight, excluded)[id] == ById(s.edges)[id]
  {
    ByIdMembers(s.edges);
    ByIdMembers(UsableEdges(s.edges, vehicleWeight, excluded));
  }

  // ----- walks

  ghost predicate IsWalk(net: Net, nodes: seq<NodeId>, ids: seq<EdgeId>) {
    && |nodes| == |ids| + 1
    && forall i :: 0 <= i < |ids| ==> ids[i] in net && Crosses(net[ids[i]], nodes[i], nodes[i + 1])
  }

  ghost predicate WalkFromTo(net: Net, u: NodeId, v: NodeId, nodes: seq<NodeId>, ids: seq<EdgeId>) {
    IsWalk(net, nodes, ids) && nodes[0] == u && nodes[|nodes| - 1] == v
  }

  ghost predicate Joined(net: Net, u: NodeId, v: NodeId) {
    exists nodes, ids :: WalkFromTo(net, u, v, nodes, ids)
  }

  function EdgeWeight(net: Net, objective: Objective, id: EdgeId): real {
    if id in net then Weight(net[id], objective) else 0.0
  }

  function Cost(net: Net, objective: Objective, ids: seq<EdgeId>): real {
    if ids == [] then 0.0
    else Cost(net, objective, ids[..|ids| - 1]) + EdgeWeight(net, objective, ids[|ids| - 1])
  }

  function RiskCost(net: Net, ids: seq<EdgeId>): int {
    if ids == [] then 0
    else
      var id := ids[|ids| - 1];
      RiskCost(net, ids[..|ids| - 1]) + (if id in net then RiskPenalty(net[id]) else 0)
  }

  ghost predicate NonNegative(net: Net, objective: Objective) {
    forall id :: id in net ==> Weight(net[id], objective) >= 0.0
  }

  ghost predicate Positive(net: Net, objective: Objective) {
    forall id :: id in net ==> Weight(net[id], objective) > 0.0
  }

  /** A walk's prefix up to its last step. */
  lemma WalkInit(net: Net, nodes: seq<NodeId>, ids: seq<EdgeId>)
    requires IsWalk(net, nodes, ids) && ids != []
    ensures IsWalk(net, nodes[..|ids|], ids[..|ids| - 1])
    ensures var id := ids[|ids| - 1]; id in net && Crosses(net[id], nodes[|ids| - 1], nodes[|ids|])
  {
  }

  /** From a given start, the edge ids alone determine the nodes of a walk. */
  lemma {:induction false} NodesDetermined(net: Net, nodes: seq<NodeId>, nodes': seq<NodeId>, ids: seq<EdgeId>)
    requires IsWalk(net, nodes, ids) && IsWalk(net, nodes', ids) && nodes[0] == nodes'[0]
    ensures nodes == nodes'
  {
    if ids != [] {
      var n := |ids|;
      WalkInit(net, nodes, ids);
      WalkInit(net, nodes', ids);
      NodesDetermined(net, nodes[..n], nodes'[..n], ids[..n - 1]);
      assert nodes[n - 1] == nodes[..n][n - 1] == nodes'[..n][n - 1] == nodes'[n - 1];
      assert nodes == nodes[..n] + [nodes[n]] && nodes' == nodes'[..n] + [nodes'[n]];
    }
  }

  /** A walk of a smaller network is a walk of a larger one, at the same cost. */
  lemma {:induction false} WalkInLargerNet(net: Net, larger: Net, nodes: seq<NodeId>, ids: seq<EdgeId>,
      objective: Objective)
    requires IsWalk(net, nodes, ids)
    requires forall id :: id in net ==> id in larger && larger[id] == net[id]
    ensures IsWalk(larger, nodes, ids)
    ensures Cost(larger, objective, ids) == Cost(net, objective, ids) && RiskCost(larger, ids) == RiskCost(net, ids)
  {
    if ids != [] {
      WalkInit(net, nodes, ids);
      WalkInLargerNet(net, larger, nodes[..|ids|], ids[..|ids| - 1], objective);
    }
  }

  lemma {:induction false} CostNonNegative(net: Net, objective: Objective, ids: seq<EdgeId>)
    requires NonNegative(net, objective)
    ensures Cost(net, objective, ids) >= 0.0
  {
    if ids != [] {
      CostNonNegative(net, objective, ids[..|ids| - 1]);
    }
  }

  /** The safest objective weighs travel minutes and risk together, edge by edge and so path by path. */
  lemma {:induction false} SafestCostSplits(net: Net, ids: seq<EdgeId>)
    ensures Cost(net, Safest, ids) == Cost(net, Fastest, ids) + RiskCost(net, ids) as real
  {
    if ids != [] {
      SafestCostSplits(net, ids[..|ids| - 1]);
    }
  }

  /** With positive weights, a walk costs strictly more than each of its proper prefixes. */
  lemma {:induction false} LongerCostsMore(net: Net, objective: Objective, a: seq<EdgeId>, b: seq<EdgeId>)
    requires Positive(net, objective) && a < b && forall i :: 0 <= i < |b| ==> b[i] in net
    ensures Cost(net, objective, a) < Cost(net, objective, b)
  {
    var init := b[..|b| - 1];
    if |a| == |b| - 1 {
      assert a == init;
    } else {
      assert a < init;
      LongerCostsMore(net, objective, a, init);
    }
  }

  // ----- state form

  datatype NodeState = NodeState(nodeId: NodeId, name: string, x: string, y: string, nodeType: string)

  datatype EdgeState = EdgeState(
    edgeId: EdgeId, name: string, fromNode: NodeId, toNode: NodeId,
    distance: string, baseMinutes: int, roadLevel: string, riskLevel: string, status: string,
    congestion: string, weightLimit: string, bidirectional: bool, version: int)

  datatype SnapshotState = SnapshotState(version: int, nodes: seq<NodeState>, edges: seq<EdgeState>)

  function NodeToState(n: RoadNode): NodeState {
    NodeState(n.nodeId, n.name, Print(n.x), Print(n.y), n.nodeType)
  }

  function EdgeToState(e: RoadEdge): EdgeState {
    EdgeState(e.edgeId, e.name, e.fromNode, e.toNode, Print(e.distance), e.baseMinutes, e.roadLevel, e.riskLevel,
              e.status, Print(e.congestion), Print(e.weightLimit), e.bidirectional, e.version)
  }

  function ToState(s: Snapshot): SnapshotState {
    SnapshotState(s.version,
                  seq(|s.nodes|, i requires 0 <= i < |s.nodes| => NodeToState(s.nodes[i])),
                  seq(|s.edges|, i requires 0 <= i < |s.edges| => EdgeToState(s.edges[i])))
  }

  /** None where Decimal(...) raises on malformed text. */
  function NodeOfState(n: NodeState): Option<RoadNode> {
    match (Parse(n.x), Parse(n.y))
    case (Some(x), Some(y)) => Some(RoadNode(n.nodeId, n.name, x, y, n.nodeType))
    case _ => None
  }

  function EdgeOfState(e: EdgeState): Option<RoadEdge> {
    match (Parse(e.distance), Parse(e.congestion), Parse(e.weightLimit))
    case (Some(d), Some(c), Some(w)) =>
      Some(RoadEdge(e.edgeId, e.name, e.fromNode, e.toNode, d, e.baseMinutes, e.roadLevel, e.riskLevel,
                    e.status, c, w, e.bidirectional, e.version))
    case _ => None
  }

  /** All of `f(x)` for x in s, or None when one of them is. */
  function Traverse<A, B>(f: A -> Option<B>, s: seq<A>): Option<seq<B>> {
    if s == [] then Some([])
    else match (f(s[0]), Traverse(f, s[1..]))
      case (Some(x), Some(rest)) => Some([x] + rest)
      case _ => None
  }

  function Restore(st: SnapshotState): Option<Snapshot> {
    match (Traverse(NodeOfState, st.nodes), Traverse(EdgeOfState, st.edges))
    case (Some(nodes), Some(edges)) => Some(Snapshot(st.version, nodes, edges))
    case _ => None
  }

  lemma NodeRoundTrip(n: RoadNode)
    ensures NodeOfState(NodeToState(n)) == Some(n)
  {
    PrintParse(n.x);
    PrintParse(n.y);
  }

  lemma EdgeRoundTrip(e: RoadEdge)
    ensures EdgeOfState(EdgeToState(e)) == Some(e)
  {
    PrintParse(e.distance);
    PrintParse(e.congestion);
    PrintParse(e.weightLimit);
  }

  /** Every field of an edge stands under its own name, and the decimals read back as they were. */
  lemma EdgeStateOnFields(e: RoadEdge)
    ensures var st := EdgeToState(e);
      && st.edgeId == e.edgeId && st.name == e.name && st.fromNode == e.fromNode && st.toNode == e.toNode
      && st.baseMinutes == e.baseMinutes && st.roadLevel == e.roadLevel && st.riskLevel == e.riskLevel
      && st.status == e.status && st.bidirectional == e.bidirectional && st.version == e.version
      && Parse(st.distance) == Some(e.distance) && Parse(st.congestion) == Some(e.congestion)
      && Parse(st.weightLimit) == Some(e.weightLimit)
  {
    PrintParse(e.distance);
    PrintParse(e.congestion);
    PrintParse(e.weightLimit);
  }

  lemma {:induction false} TraverseUndoes<A, B>(f: A -> Option<B>, s: seq<A>, out: seq<B>)
    requires |s| == |out| && forall i :: 0 <= i < |s| ==> f(s[i]) == Some(out[i])
    ensures Traverse(f, s) == Some(out)
  {
    if s != [] {
      TraverseUndoes(f, s[1..], out[1..]);
      assert out == [out[0]] + out[1..];
    }
  }

  /** A captured snapshot is restored unchanged, whatever the scale of its decimals. */
  lemma RestoreUndoesToState(s: Snapshot)
    ensures Restore(ToState(s)) == Some(s)
  {
    forall n: RoadNode ensures NodeOfState(NodeToState(n)) == Some(n) { NodeRoundTrip(n); }
    forall e: RoadEdge ensures EdgeOfState(EdgeToState(e)) == Some(e) { EdgeRoundTrip(e); }
    TraverseUndoes(NodeOfState, ToState(s).nodes, s.nodes);
    TraverseUndoes(EdgeOfState, ToState(s).edges, s.edges);
  }
}
