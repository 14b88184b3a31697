/** What the path finder promises, for every snapshot and every query. */
module PathTheorems {
  import opened Decimals
  import opened Orders
  import opened RoadNetwork
  import opened Search
  import opened PathFinder

  /** The final search state of a query with two different known endpoints. */
  ghost function EndState(s: Snapshot, t: Trip): (r: State)
    requires Searchable(s, t) && t.start != t.goal
    ensures var q := QueryOf(s, t);
      ValidQuery(q) && Inv(q, r) && Over(q, r)
  {
    var q := QueryOf(s, t);
    QueryValid(s, t);
    InitialInv(q);
    Final(q, Initial(q))
  }

  /** An empty heap means every reachable node was settled. */
  lemma ExhaustedSettlesAll(q: Query, s: State, nodes: seq<NodeId>, ids: seq<EdgeId>)
    requires ValidQuery(q) && Inv(q, s) && s.heap == []
    requires IsWalk(q.net, nodes, ids) && nodes[0] == q.start
    ensures nodes[|ids|] in s.done
  {
    WalkCostBound(q, s, Label(Cost(q.net, q.objective, ids) + 1.0, []), nodes, ids);
  }

  /** The entry that ends the search is a walk to the goal no other walk undercuts. */
  lemma GoalEntryOptimal(q: Query, s: State, nodes: seq<NodeId>, ids: seq<EdgeId>)
    requires ValidQuery(q) && Inv(q, s) && Over(q, s) && s.heap != []
    requires WalkFromTo(q.net, q.start, q.goal, nodes, ids)
    ensures s.heap[LeastIndex(s.heap)].tag.cost <= Cost(q.net, q.objective, ids)
  {
    WalkCostBound(q, s, s.heap[LeastIndex(s.heap)].tag, nodes, ids);
  }

  /** No path is returned exactly when an endpoint is unknown or no usable walk joins them. */
  lemma FindsPathIffJoined(s: Snapshot, t: Trip)
    requires Searchable(s, t)
    ensures Find(s, t).Some? <==>
              t.start in NodeIds(s) && t.goal in NodeIds(s) && Joined(NetFor(s, t), t.start, t.goal)
  {
    var net := NetFor(s, t);
    if t.start in NodeIds(s) && t.goal in NodeIds(s) {
      if t.start == t.goal {
        assert WalkFromTo(net, t.start, t.goal, [t.start], []);
      } else {
        var q := QueryOf(s, t);
        var end := EndState(s, t);
        if end.heap != [] {
          var top := end.heap[LeastIndex(end.heap)];
          assert top in end.heap && ValidEntry(q, top);
          assert WalkFromTo(net, t.start, t.goal, top.nodes, top.tag.ids);
        } else if Joined(net, t.start, t.goal) {
          var nodes, ids :| WalkFromTo(net, t.start, t.goal, nodes, ids);
          ExhaustedSettlesAll(q, end, nodes, ids);
          assert false;
        }
      }
    }
  }

  /** The returned path is a usable walk, repeats no node, and no usable walk costs less. */
  lemma FoundPathIsCheapest(s: Snapshot, t: Trip)
    requires Searchable(s, t)
    requires Find(s, t).Some?
    ensures var p, net := Find(s, t).value, NetFor(s, t);
      && WalkFromTo(net, t.start, t.goal, p.nodeIds, p.edgeIds) && Distinct(p.nodeIds)
      && forall nodes, ids :: WalkFromTo(net, t.start, t.goal, nodes, ids) ==>
           Cost(net, t.objective, p.edgeIds) <= Cost(net, t.objective, ids)
  {
    var p, net := Find(s, t).value, NetFor(s, t);
    if t.start == t.goal {
      forall nodes, ids | WalkFromTo(net, t.start, t.goal, nodes, ids) ensures 0.0 <= Cost(net, t.objective, ids) {
        CostNonNegative(net, t.objective, ids);
      }
    } else {
      var q := QueryOf(s, t);
      var end := EndState(s, t);
      var top := end.heap[LeastIndex(end.heap)];
      assert top in end.heap && ValidEntry(q, top);
      forall nodes, ids | WalkFromTo(net, t.start, t.goal, nodes, ids)
        ensures top.tag.cost <= Cost(net, t.objective, ids)
      {
        GoalEntryOptimal(q, end, nodes, ids);
      }
    }
  }

  /** The figures shown for a path are the rounded folds over its edges. */
  lemma FoundFiguresAreFolds(s: Snapshot, t: Trip)
    requires Searchable(s, t)
    requires Find(s, t).Some?
    ensures var p, net := Find(s, t).value, NetFor(s, t);
      && p.objective == t.objective
      && p.distance == Quantize(Cost(net, Shortest, p.edgeIds), 2)
      && p.minutes == Ceiling(Cost(net, Fastest, p.edgeIds))
      && p.riskCost == RiskCost(net, p.edgeIds)
  {
    var p, net := Find(s, t).value, NetFor(s, t);
    if t.start != t.goal {
      var q := QueryOf(s, t);
      var end := EndState(s, t);
      var top := end.heap[LeastIndex(end.heap)];
      assert top in end.heap && ValidEntry(q, top);
      UsableNetMembers(s, t.vehicleWeight, t.excluded);
      WalkInLargerNet(net, ById(s.edges), top.nodes, top.tag.ids, Fastest);
    }
  }

  /** At every weight the path is below all usable walks without repeated nodes in the (cost, ids) order, so its
      edge ids are the least among the cheapest of them; at positive weights it is below all usable walks. */
  lemma FoundPathIsCanonical(s: Snapshot, t: Trip)
    requires Searchable(s, t)
    requires Find(s, t).Some?
    ensures var best, net := LabelOf(NetFor(s, t), t.objective, Find(s, t).value.edgeIds), NetFor(s, t);
      && (forall nodes, ids :: WalkFromTo(net, t.start, t.goal, nodes, ids) && Distinct(nodes) ==>
            Leq(best, LabelOf(net, t.objective, ids)))
      && (Positive(net, t.objective) ==> forall nodes, ids :: WalkFromTo(net, t.start, t.goal, nodes, ids) ==>
            Leq(best, LabelOf(net, t.objective, ids)))
  {
    var best, net := LabelOf(NetFor(s, t), t.objective, Find(s, t).value.edgeIds), NetFor(s, t);
    forall nodes, ids | WalkFromTo(net, t.start, t.goal, nodes, ids) && Ranked(net, t.objective, nodes)
      ensures Leq(best, LabelOf(net, t.objective, ids))
    {
      if t.start == t.goal {
        if ids != [] && Positive(net, t.objective) { LongerCostsMore(net, t.objective, [], ids); }
      } else {
        var q := QueryOf(s, t);
        var end := EndState(s, t);
        var top := end.heap[LeastIndex(end.heap)];
        assert top in end.heap && ValidEntry(q, top);
        WalkLabelBound(q, end, top.tag, nodes, ids);
      }
    }
  }

  lemma {:induction false} CostFromFront(net: Net, objective: Objective, id: EdgeId, ids: seq<EdgeId>)
    ensures Cost(net, objective, [id] + ids) == EdgeWeight(net, objective, id) + Cost(net, objective, ids)
  {
    var all := [id] + ids;
    if ids == [] {
      assert all[..0] == [];
    } else {
      assert all[..|all| - 1] == [id] + ids[..|ids| - 1];
      CostFromFront(net, objective, id, ids[..|ids| - 1]);
    }
  }

  /** Walks with repeated nodes are another matter at weight zero: a free edge from the start to itself with a smaller
      id than the path's first gives a usable walk strictly below the path. */
  lemma FreeCyclePrecedes(s: Snapshot, t: Trip, id: EdgeId)
    requires Searchable(s, t)
    requires Find(s, t).Some? && Find(s, t).value.edgeIds != [] && StringLess(id, Find(s, t).value.edgeIds[0])
    requires var net := NetFor(s, t);
      id in net && Crosses(net[id], t.start, t.start) && Weight(net[id], t.objective) == 0.0
    ensures var p, net := Find(s, t).value, NetFor(s, t);
      && WalkFromTo(net, t.start, t.goal, [t.start] + p.nodeIds, [id] + p.edgeIds)
      && Less(LabelOf(net, t.objective, [id] + p.edgeIds), LabelOf(net, t.objective, p.edgeIds))
  {
    var p, net := Find(s, t).value, NetFor(s, t);
    FoundPathIsCheapest(s, t);
    CostFromFront(net, t.objective, id, p.edgeIds);
    PrependedWalk(net, t.start, t.goal, id, p.nodeIds, p.edgeIds);
  }

  lemma PrependedWalk(net: Net, u: NodeId, v: NodeId, id: EdgeId, nodes: seq<NodeId>, ids: seq<EdgeId>)
    requires WalkFromTo(net, u, v, nodes, ids) && id in net && Crosses(net[id], u, u)
    ensures WalkFromTo(net, u, v, [u] + nodes, [id] + ids)
  {
    var longer, all := [u] + nodes, [id] + ids;
    forall i | 0 <= i < |all| ensures all[i] in net && Crosses(net[all[i]], longer[i], longer[i + 1]) {
      if i > 0 { assert all[i] == ids[i - 1] && longer[i] == nodes[i - 1] && longer[i + 1] == nodes[i]; }
    }
  }

  /** A free loop at the start beside a road to the goal. */
  ghost predicate LoopBesideRoad(s: Snapshot, t: Trip, loop: RoadEdge, road: RoadEdge) {
    && s.edges == [loop, road] && StringLess(loop.edgeId, road.edgeId)
    && t.start in NodeIds(s) && t.goal in NodeIds(s) && t.start != t.goal
    && loop.fromNode == t.start == loop.toNode && road.fromNode == t.start && road.toNode == t.goal
    && loop.riskLevel in RISK_PENALTIES && Available(loop, t.vehicleWeight, t.excluded)
      && Weight(loop, t.objective) == 0.0
    && road.riskLevel in RISK_PENALTIES && Available(road, t.vehicleWeight, t.excluded)
      && Weight(road, t.objective) >= 0.0
  }

  ghost predicate TwoEdges(net: Net, loop: RoadEdge, road: RoadEdge) {
    && loop.edgeId in net && net[loop.edgeId] == loop && road.edgeId in net && net[road.edgeId] == road
    && loop.edgeId != road.edgeId && forall id :: id in net ==> id == loop.edgeId || id == road.edgeId
  }

  lemma LoopNet(s: Snapshot, t: Trip, loop: RoadEdge, road: RoadEdge)
    requires LoopBesideRoad(s, t, loop, road)
    ensures TwoEdges(NetFor(s, t), loop, road) && Searchable(s, t)
  {
    StringLessTotal();
    UsableNetMembers(s, t.vehicleWeight, t.excluded);
    ByIdMembers(s.edges);
    assert s.edges[0] == loop && s.edges[1] == road;
  }

  lemma TakesTheRoad(net: Net, u: NodeId, v: NodeId, nodes: seq<NodeId>, ids: seq<EdgeId>, loop: RoadEdge,
      road: RoadEdge)
    requires TwoEdges(net, loop, road) && loop.fromNode == u == loop.toNode && u != v
    requires WalkFromTo(net, u, v, nodes, ids) && Distinct(nodes)
    ensures ids != [] && ids[0] == road.edgeId
  {
    assert ids[0] in net && Crosses(net[ids[0]], nodes[0], nodes[1]);
  }

  lemma RoadJoins(net: Net, road: RoadEdge)
    requires road.edgeId in net && net[road.edgeId] == road
    ensures Joined(net, road.fromNode, road.toNode)
  {
    assert WalkFromTo(net, road.fromNode, road.toNode, [road.fromNode, road.toNode], [road.edgeId]);
  }

  /** The path takes the road, and the walk over the loop precedes it. */
  lemma LoopPrecedes(s: Snapshot, t: Trip, loop: RoadEdge, road: RoadEdge)
    requires LoopBesideRoad(s, t, loop, road)
    ensures Searchable(s, t) && Find(s, t).Some?
    ensures var p, net := Find(s, t).value, NetFor(s, t);
      && WalkFromTo(net, t.start, t.goal, [t.start] + p.nodeIds, [loop.edgeId] + p.edgeIds)
      && Less(LabelOf(net, t.objective, [loop.edgeId] + p.edgeIds), LabelOf(net, t.objective, p.edgeIds))
  {
    LoopNet(s, t, loop, road);
    RoadJoins(NetFor(s, t), road);
    FindsPathIffJoined(s, t);
    FoundPathIsCheapest(s, t);
    TakesTheRoad(NetFor(s, t), t.start, t.goal, Find(s, t).value.nodeIds, Find(s, t).value.edgeIds, loop, road);
    FreeCyclePrecedes(s, t, loop.edgeId);
  }

  /** There is such a network. */
  lemma LoopBesideRoadExists() returns (s: Snapshot, t: Trip, loop: RoadEdge, road: RoadEdge)
    ensures LoopBesideRoad(s, t, loop, road)
  {
    var zero := Decimal(0, 2);
    var a, b := RoadNode("A", "A", zero, zero, "STATION"), RoadNode("B", "B", zero, zero, "STATION");
    loop := RoadEdge("a", "loop", "A", "A", zero, 0, "COUNTY", "LOW", "OPEN", zero, zero, false, 1);
    road := RoadEdge("b", "road", "A", "B", zero, 0, "COUNTY", "LOW", "OPEN", zero, zero, false, 1);
    s, t := Snapshot(1, [a, b], [loop, road]), Trip("A", "B", Shortest, 0.0, {});
    assert s.nodes[0] == a && s.nodes[1] == b;
  }

  // ----- the visited count

  /** Some walk to `v`, without repeated nodes if `simple`, is labelled at most `l`. */
  ghost predicate ReachedWithin(net: Net, objective: Objective, start: NodeId, l: Label, simple: bool, v: NodeId) {
    exists nodes, ids :: WalkFromTo(net, start, v, nodes, ids) && (simple ==> Distinct(nodes))
      && Leq(LabelOf(net, objective, ids), l)
  }

  /** The nodes whose best label is at most `l`. */
  ghost function Nearby(net: Net, objective: Objective, start: NodeId, l: Label, simple: bool): set<NodeId> {
    set v | v in Universe(net, start) && ReachedWithin(net, objective, start, l, simple, v)
  }

  lemma EntryIsNearby(q: Query, l: Label, simple: bool, e: Entry)
    requires ValidEntry(q, e) && Leq(e.tag, l)
    ensures e.node in Nearby(q.net, q.objective, q.start, l, simple)
  {
    EntryInUniverse(q, e);
    assert WalkFromTo(q.net, q.start, e.node, e.nodes, e.tag.ids) && Leq(LabelOf(q.net, q.objective, e.tag.ids), l);
  }

  lemma WalkIsSettled(q: Query, s: State, l: Label, v: NodeId, nodes: seq<NodeId>, ids: seq<EdgeId>)
    requires ValidQuery(q) && Inv(q, s) && s.heap != [] && Over(q, s) && l == s.heap[LeastIndex(s.heap)].tag
    requires WalkFromTo(q.net, q.start, v, nodes, ids) && Ranked(q.net, q.objective, nodes)
    requires Leq(LabelOf(q.net, q.objective, ids), l)
    ensures v in s.done || v == q.goal
  {
    var top := s.heap[LeastIndex(s.heap)];
    assert top in s.heap && ValidEntry(q, top);
    WalkLabelBound(q, s, l, nodes, ids);
    if v !in s.done {
      LabelOrder(l, LabelOf(q.net, q.objective, ids), l);
      assert ids == top.tag.ids;
      NodesDetermined(q.net, nodes, top.nodes, ids);
    }
  }

  lemma SettledAreNearby(q: Query, s: State, l: Label, simple: bool, v: NodeId)
    requires ValidQuery(q) && Inv(q, s) && s.heap != [] && Over(q, s) && (simple || Positive(q.net, q.objective))
    requires l == s.heap[LeastIndex(s.heap)].tag
    ensures v in Nearby(q.net, q.objective, q.start, l, simple) <==> v in s.done || v == q.goal
  {
    var top := s.heap[LeastIndex(s.heap)];
    assert top in s.heap && ValidEntry(q, top);
    if v in s.done {
      EntryIsNearby(q, l, simple, s.done[v]);
    } else if v == q.goal {
      EntryIsNearby(q, l, simple, top);
    } else if ReachedWithin(q.net, q.objective, q.start, l, simple, v) {
      var nodes, ids :| WalkFromTo(q.net, q.start, v, nodes, ids) && (simple ==> Distinct(nodes))
                        && Leq(LabelOf(q.net, q.objective, ids), l);
      WalkIsSettled(q, s, l, v, nodes, ids);
    }
  }

  lemma SettledCount(q: Query, s: State, simple: bool)
    requires ValidQuery(q) && Inv(q, s) && s.heap != [] && Over(q, s) && (simple || Positive(q.net, q.objective))
    ensures |Nearby(q.net, q.objective, q.start, s.heap[LeastIndex(s.heap)].tag, simple)| == |s.done| + 1
  {
    var l := s.heap[LeastIndex(s.heap)].tag;
    var near := Nearby(q.net, q.objective, q.start, l, simple);
    forall v ensures v in near <==> v in s.done.Keys || v == q.goal { SettledAreNearby(q, s, l, simple, v); }
    OneMore(s.done.Keys, q.goal, near);
    assert |s.done.Keys| == |s.done|;
  }

  lemma OneMore<T(!new)>(a: set<T>, x: T, b: set<T>)
    requires x !in a && forall v :: v in b <==> v in a || v == x
    ensures |b| == |a| + 1
  {
    assert b == a + {x};
  }

  /** The visited count is the number of nodes whose best label is at most the destination's: over walks without
      repeated nodes at every weight, over all walks at positive weights. */
  lemma VisitedCountIsNearby(s: Snapshot, t: Trip)
    requires Searchable(s, t)
    requires t.start != t.goal && Find(s, t).Some?
    ensures var p, net := Find(s, t).value, NetFor(s, t);
      var best := LabelOf(net, t.objective, p.edgeIds);
      && p.visited == |Nearby(net, t.objective, t.start, best, true)|
      && (Positive(net, t.objective) ==> p.visited == |Nearby(net, t.objective, t.start, best, false)|)
  {
    var net := NetFor(s, t);
    var q := QueryOf(s, t);
    var end := EndState(s, t);
    var top := end.heap[LeastIndex(end.heap)];
    assert top in end.heap && ValidEntry(q, top);
    SettledCount(q, end, true);
    if Positive(net, t.objective) { SettledCount(q, end, false); }
  }

  // ----- independence of the order of nodes and edges

  ghost predicate SameNetwork(a: Snapshot, b: Snapshot) {
    NodeIds(a) == NodeIds(b) && multiset(a.edges) == multiset(b.edges)
  }

  lemma SameById(a: seq<RoadEdge>, b: seq<RoadEdge>)
    requires UniqueIds(a) && UniqueIds(b) && multiset(a) == multiset(b)
    ensures ById(a) == ById(b)
  {
    forall e ensures e in a <==> e in b {
      assert e in a <==> e in multiset(a);
    }
    ByIdMembers(a);
    ByIdMembers(b);
  }

  lemma SameUsableNet(a: Snapshot, b: Snapshot, vehicleWeight: real, excluded: set<EdgeId>)
    requires SameNetwork(a, b) && UniqueIds(a.edges) && UniqueIds(b.edges)
    ensures ById(a.edges) == ById(b.edges)
    ensures UsableNet(a, vehicleWeight, excluded) == UsableNet(b, vehicleWeight, excluded)
  {
    SameById(a.edges, b.edges);
    UsableNetMembers(a, vehicleWeight, excluded);
    UsableNetMembers(b, vehicleWeight, excluded);
  }

  /** The whole result, visited count included, is the same for every listing of the network. */
  lemma ResultIgnoresListingOrder(a: Snapshot, b: Snapshot, t: Trip)
    requires SameNetwork(a, b)
    requires Searchable(a, t) && Searchable(b, t)
    ensures Find(a, t) == Find(b, t)
  {
    SameUsableNet(a, b, t.vehicleWeight, t.excluded);
    FindsPathIffJoined(a, t);
    FindsPathIffJoined(b, t);
    if Find(a, t).Some? && t.start != t.goal {
      SamePath(a, b, t);
      FoundFiguresAreFolds(a, t);
      FoundFiguresAreFolds(b, t);
      VisitedCountIsNearby(a, t);
      VisitedCountIsNearby(b, t);
    }
  }

  lemma SamePath(a: Snapshot, b: Snapshot, t: Trip)
    requires Searchable(a, t) && Searchable(b, t)
    requires NetFor(a, t) == NetFor(b, t)
    requires Find(a, t).Some?
    requires Find(b, t).Some?
    ensures var p, r := Find(a, t).value, Find(b, t).value;
      p.edgeIds == r.edgeIds && p.nodeIds == r.nodeIds
  {
    var net := NetFor(a, t);
    var p := Find(a, t).value;
    var r := Find(b, t).value;
    FoundPathIsCheapest(a, t);
    FoundPathIsCheapest(b, t);
    FoundPathIsCanonical(a, t);
    FoundPathIsCanonical(b, t);
    assert WalkFromTo(net, t.start, t.goal, p.nodeIds, p.edgeIds)
      && WalkFromTo(net, t.start, t.goal, r.nodeIds, r.edgeIds);
    LabelOrder(LabelOf(net, t.objective, p.edgeIds), LabelOf(net, t.objective, r.edgeIds),
      LabelOf(net, t.objective, p.edgeIds));
    NodesDetermined(net, p.nodeIds, r.nodeIds, p.edgeIds);
  }

  /** A captured and restored snapshot answers every query alike. */
  lemma RestoredSnapshotFindsTheSame(s: Snapshot, t: Trip)
    requires Searchable(s, t)
    ensures Restore(ToState(s)).Some? && Searchable(Restore(ToState(s)).value, t)
    ensures Find(Restore(ToState(s)).value, t)
         == Find(s, t)
  {
    RestoreUndoesToState(s);
  }

  // ----- heavier vehicles and more exclusions

  /** A heavier vehicle or more exclusions never open a path and never make it cheaper. */
  lemma RestrictingNeverHelps(s: Snapshot, t: Trip, tight: Trip)
    requires tight == t.(vehicleWeight := tight.vehicleWeight, excluded := tight.excluded)
    requires t.vehicleWeight <= tight.vehicleWeight && t.excluded <= tight.excluded
    requires Searchable(s, t) && Searchable(s, tight)
    ensures Find(s, tight).Some? ==>
      && Find(s, t).Some?
      && Cost(ById(s.edges), t.objective, Find(s, t).value.edgeIds)
         <= Cost(ById(s.edges), t.objective, Find(s, tight).value.edgeIds)
  {
    var all, wide, narrow := ById(s.edges), NetFor(s, t), NetFor(s, tight);
    UsableNetMembers(s, t.vehicleWeight, t.excluded);
    UsableNetMembers(s, tight.vehicleWeight, tight.excluded);
    FindsPathIffJoined(s, t);
    FindsPathIffJoined(s, tight);
    if Find(s, tight).Some? {
      var p := Find(s, tight).value;
      FoundPathIsCheapest(s, tight);
      WalkInLargerNet(narrow, wide, p.nodeIds, p.edgeIds, t.objective);
      assert WalkFromTo(wide, t.start, t.goal, p.nodeIds, p.edgeIds);
      var best := Find(s, t).value;
      FoundPathIsCheapest(s, t);
      WalkInLargerNet(wide, all, best.nodeIds, best.edgeIds, t.objective);
      WalkInLargerNet(wide, all, p.nodeIds, p.edgeIds, t.objective);
    }
  }

  /** After rounding, FASTEST shows no more minutes and SHORTEST no more kilometres than any other objective. */
  lemma ObjectivesKeepTheirPromise(s: Snapshot, t: Trip)
    requires Searchable(s, t.(objective := Fastest)) && Searchable(s, t.(objective := Shortest))
    requires Searchable(s, t)
    requires Find(s, t).Some?
    ensures Find(s, t.(objective := Fastest)).Some? && Find(s, t.(objective := Shortest)).Some?
    ensures Find(s, t.(objective := Fastest)).value.minutes
         <= Find(s, t).value.minutes
    ensures Find(s, t.(objective := Shortest)).value.distance.Value()
         <= Find(s, t).value.distance.Value()
  {
    var net := NetFor(s, t);
    FindsPathIffJoined(s, t);
    FindsPathIffJoined(s, t.(objective := Fastest));
    FindsPathIffJoined(s, t.(objective := Shortest));
    var p := Find(s, t).value;
    var fast := Find(s, t.(objective := Fastest)).value;
    var short := Find(s, t.(objective := Shortest)).value;
    FoundPathIsCheapest(s, t);
    FoundPathIsCheapest(s, t.(objective := Fastest));
    FoundPathIsCheapest(s, t.(objective := Shortest));
    FoundFiguresAreFolds(s, t);
    FoundFiguresAreFolds(s, t.(objective := Fastest));
    FoundFiguresAreFolds(s, t.(objective := Shortest));
    assert WalkFromTo(net, t.start, t.goal, p.nodeIds, p.edgeIds);
    CeilingMonotone(Cost(net, Fastest, fast.edgeIds), Cost(net, Fastest, p.edgeIds));
    QuantizeMonotone(Cost(net, Shortest, short.edgeIds), Cost(net, Shortest, p.edgeIds), 2);
  }

  // ----- on the fields of the edges

  /** Every listed edge carries the weight, is not blocked and is not excluded. */
  ghost predicate Passable(edges: seq<RoadEdge>, vehicleWeight: real, excluded: set<EdgeId>, ids: seq<EdgeId>) {
    forall e :: e in edges && e.edgeId in ids ==>
      vehicleWeight <= e.weightLimit.Value() && e.status != "BLOCKED" && e.edgeId !in excluded
  }

  lemma UsableIsPassable(s: Snapshot, t: Trip, nodes: seq<NodeId>, ids: seq<EdgeId>)
    requires UniqueIds(s.edges)
    ensures IsWalk(NetFor(s, t), nodes, ids) <==>
            IsWalk(ById(s.edges), nodes, ids) && Passable(s.edges, t.vehicleWeight, t.excluded, ids)
  {
    var net, all := NetFor(s, t), ById(s.edges);
    UsableNetMembers(s, t.vehicleWeight, t.excluded);
    ByIdMembers(s.edges);
    if IsWalk(all, nodes, ids) && Passable(s.edges, t.vehicleWeight, t.excluded, ids) {
      forall i | 0 <= i < |ids| ensures ids[i] in net && net[ids[i]] == all[ids[i]] {
        assert all[ids[i]] in s.edges && all[ids[i]].edgeId in ids;
      }
    }
  }

  lemma SameCost(s: Snapshot, t: Trip, nodes: seq<NodeId>, ids: seq<EdgeId>)
    requires UniqueIds(s.edges) && IsWalk(NetFor(s, t), nodes, ids)
    ensures Cost(NetFor(s, t), t.objective, ids) == Cost(ById(s.edges), t.objective, ids)
  {
    UsableNetMembers(s, t.vehicleWeight, t.excluded);
    WalkInLargerNet(NetFor(s, t), ById(s.edges), nodes, ids, t.objective);
  }

  /** A walk over the listed edges that the vehicle may drive. */
  ghost predicate Drivable(s: Snapshot, t: Trip, nodes: seq<NodeId>, ids: seq<EdgeId>) {
    WalkFromTo(ById(s.edges), t.start, t.goal, nodes, ids) && Passable(s.edges, t.vehicleWeight, t.excluded, ids)
  }

  /** A path is found exactly when both endpoints are known and a walk joins them whose edges all carry the weight, are
      not blocked and not excluded; the found path is one, and none is cheaper. */
  lemma FoundPathOnFields(s: Snapshot, t: Trip)
    requires Searchable(s, t)
    ensures Find(s, t).Some? <==>
              t.start in NodeIds(s) && t.goal in NodeIds(s) && exists nodes, ids :: Drivable(s, t, nodes, ids)
    ensures Find(s, t).Some? ==> Drivable(s, t, Find(s, t).value.nodeIds, Find(s, t).value.edgeIds)
    ensures Find(s, t).Some? ==> forall nodes, ids :: Drivable(s, t, nodes, ids) ==>
              Cost(ById(s.edges), t.objective, Find(s, t).value.edgeIds) <= Cost(ById(s.edges), t.objective, ids)
  {
    FindsPathIffJoined(s, t);
    if Find(s, t).Some? {
      var p := Find(s, t).value;
      FoundPathIsCheapest(s, t);
      UsableIsPassable(s, t, p.nodeIds, p.edgeIds);
      SameCost(s, t, p.nodeIds, p.edgeIds);
      assert Drivable(s, t, p.nodeIds, p.edgeIds);
    }
    forall nodes, ids | Drivable(s, t, nodes, ids)
      ensures WalkFromTo(NetFor(s, t), t.start, t.goal, nodes, ids)
      ensures Cost(NetFor(s, t), t.objective, ids) == Cost(ById(s.edges), t.objective, ids)
    {
      UsableIsPassable(s, t, nodes, ids);
      SameCost(s, t, nodes, ids);
    }
  }

  function TotalKilometres(net: Net, ids: seq<EdgeId>): real {
    if ids == [] then 0.0
    else (if ids[0] in net then net[ids[0]].distance.Value() else 0.0) + TotalKilometres(net, ids[1..])
  }

  function TotalMinutes(net: Net, ids: seq<EdgeId>): real {
    if ids == [] then 0.0
    else
      (if ids[0] in net then net[ids[0]].baseMinutes as real * net[ids[0]].congestion.Value() else 0.0)
      + TotalMinutes(net, ids[1..])
  }

  /** 4 for every MEDIUM edge and 12 for every HIGH one. */
  function TotalRisk(net: Net, ids: seq<EdgeId>): int {
    if ids == [] then 0
    else
      (if ids[0] !in net then 0
       else if net[ids[0]].riskLevel == "MEDIUM" then 4 else if net[ids[0]].riskLevel == "HIGH" then 12 else 0)
      + TotalRisk(net, ids[1..])
  }

  lemma {:induction false} RiskFromFront(net: Net, id: EdgeId, ids: seq<EdgeId>)
    ensures RiskCost(net, [id] + ids) == (if id in net then RiskPenalty(net[id]) else 0) + RiskCost(net, ids)
  {
    var all := [id] + ids;
    if ids == [] {
      assert all[..0] == [];
    } else {
      assert all[..|all| - 1] == [id] + ids[..|ids| - 1];
      RiskFromFront(net, id, ids[..|ids| - 1]);
    }
  }

  lemma PenaltyByLevel(e: RoadEdge)
    ensures RiskPenalty(e) == if e.riskLevel == "MEDIUM" then 4 else if e.riskLevel == "HIGH" then 12 else 0
  {
  }

  lemma {:induction false} KilometresAreCost(net: Net, ids: seq<EdgeId>)
    ensures Cost(net, Shortest, ids) == TotalKilometres(net, ids)
  {
    if ids != [] {
      KilometresAreCost(net, ids[1..]);
      assert ids == [ids[0]] + ids[1..];
      CostFromFront(net, Shortest, ids[0], ids[1..]);
    }
  }

  lemma {:induction false} MinutesAreCost(net: Net, ids: seq<EdgeId>)
    ensures Cost(net, Fastest, ids) == TotalMinutes(net, ids)
  {
    if ids != [] {
      MinutesAreCost(net, ids[1..]);
      assert ids == [ids[0]] + ids[1..];
      CostFromFront(net, Fastest, ids[0], ids[1..]);
    }
  }

  lemma {:induction false} RiskIsTotal(net: Net, ids: seq<EdgeId>)
    ensures RiskCost(net, ids) == TotalRisk(net, ids)
  {
    if ids != [] {
      RiskIsTotal(net, ids[1..]);
      assert ids == [ids[0]] + ids[1..];
      RiskFromFront(net, ids[0], ids[1..]);
      if ids[0] in net { PenaltyByLevel(net[ids[0]]); }
    }
  }

  /** What the three objectives minimise. */
  lemma CostsAreTotals(net: Net, ids: seq<EdgeId>)
    ensures Cost(net, Shortest, ids) == TotalKilometres(net, ids)
    ensures Cost(net, Fastest, ids) == TotalMinutes(net, ids)
    ensures Cost(net, Safest, ids) == TotalMinutes(net, ids) + TotalRisk(net, ids) as real
    ensures RiskCost(net, ids) == TotalRisk(net, ids)
  {
    KilometresAreCost(net, ids);
    MinutesAreCost(net, ids);
    RiskIsTotal(net, ids);
    SafestCostSplits(net, ids);
  }

  /** The figures of a result are totals over the edges it lists. */
  lemma FiguresOnFields(s: Snapshot, t: Trip)
    requires Searchable(s, t) && Find(s, t).Some?
    ensures var p, all := Find(s, t).value, ById(s.edges);
      && p.distance == Quantize(TotalKilometres(all, p.edgeIds), 2)
      && p.minutes == Ceiling(TotalMinutes(all, p.edgeIds))
      && p.riskCost == TotalRisk(all, p.edgeIds) && p.objective == t.objective
      && (t.start == t.goal ==> p.visited == 0)
  {
    var p, net, all := Find(s, t).value, NetFor(s, t), ById(s.edges);
    FoundFiguresAreFolds(s, t);
    FoundPathIsCheapest(s, t);
    UsableNetMembers(s, t.vehicleWeight, t.excluded);
    WalkInLargerNet(net, all, p.nodeIds, p.edgeIds, Shortest);
    WalkInLargerNet(net, all, p.nodeIds, p.edgeIds, Fastest);
    CostsAreTotals(all, p.edgeIds);
  }

  lemma EqualCostIds(a: Label, b: Label)
    requires Leq(a, b) && a.cost == b.cost
    ensures a.ids == b.ids || IdsLess(a.ids, b.ids)
  {
  }

  lemma LeastLabel(s: Snapshot, t: Trip, nodes: seq<NodeId>, ids: seq<EdgeId>)
    requires Searchable(s, t) && Find(s, t).Some? && Distinct(nodes)
    requires WalkFromTo(NetFor(s, t), t.start, t.goal, nodes, ids)
    ensures Leq(LabelOf(NetFor(s, t), t.objective, Find(s, t).value.edgeIds), LabelOf(NetFor(s, t), t.objective, ids))
  {
    FoundPathIsCanonical(s, t);
  }

  /** Among the cheapest walks without repeated nodes the path has the least edge ids. */
  lemma FoundIdsAreLeast(s: Snapshot, t: Trip, nodes: seq<NodeId>, ids: seq<EdgeId>)
    requires Searchable(s, t) && Find(s, t).Some? && Drivable(s, t, nodes, ids) && Distinct(nodes)
    requires Cost(ById(s.edges), t.objective, ids) == Cost(ById(s.edges), t.objective, Find(s, t).value.edgeIds)
    ensures ids == Find(s, t).value.edgeIds || IdsLess(Find(s, t).value.edgeIds, ids)
  {
    var p, net := Find(s, t).value, NetFor(s, t);
    FoundPathOnFields(s, t);
    UsableIsPassable(s, t, p.nodeIds, p.edgeIds);
    UsableIsPassable(s, t, nodes, ids);
    SameCost(s, t, nodes, ids);
    SameCost(s, t, p.nodeIds, p.edgeIds);
    LeastLabel(s, t, nodes, ids);
    EqualCostIds(LabelOf(net, t.objective, p.edgeIds), LabelOf(net, t.objective, ids));
  }
}
