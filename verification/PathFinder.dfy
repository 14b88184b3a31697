/** DijkstraPathFinder: the query it builds from a snapshot and the loop that answers it. */
module PathFinder {
  import opened Options
  import opened Decimals
  import opened Orders
  import opened RoadNetwork
  import opened Search

  // ----- adjacency lists

  function AddArc(m: map<NodeId, seq<Arc>>, u: NodeId, a: Arc): map<NodeId, seq<Arc>> {
    m[u := (if u in m then m[u] else []) + [a]]
  }

  function AddEdge(m: map<NodeId, seq<Arc>>, e: RoadEdge): map<NodeId, seq<Arc>> {
    var forward := AddArc(m, e.fromNode, Arc(e.toNode, e));
    if e.bidirectional then AddArc(forward, e.toNode, Arc(e.fromNode, e)) else forward
  }

  function AdjacencyOf(edges: seq<RoadEdge>): map<NodeId, seq<Arc>> {
    if edges == [] then map[] else AddEdge(AdjacencyOf(edges[..|edges| - 1]), edges[|edges| - 1])
  }

  predicate ArcLess(a: Arc, b: Arc) {
    StringLess(a.edge.edgeId, b.edge.edgeId) || (a.edge.edgeId == b.edge.edgeId && StringLess(a.to, b.to))
  }

  function SortArcs(m: map<NodeId, seq<Arc>>): map<NodeId, seq<Arc>> {
    map u | u in m :: Sorted(ArcLess, m[u])
  }

  function Listed(m: map<NodeId, seq<Arc>>, u: NodeId): seq<Arc> {
    if u in m then m[u] else []
  }

  lemma ArcLessWeak()
    ensures StrictWeak(ArcLess)
  {
    StringLessTotal();
  }

  lemma {:induction false} AdjacencyArcs(edges: seq<RoadEdge>)
    ensures forall u, a :: a in Listed(AdjacencyOf(edges), u) <==> a.edge in edges && Crosses(a.edge, u, a.to)
  {
    if edges != [] {
      var init, e := edges[..|edges| - 1], edges[|edges| - 1];
      AdjacencyArcs(init);
      assert edges == init + [e];
      forall u, a ensures a in Listed(AdjacencyOf(edges), u) <==> a.edge in edges && Crosses(a.edge, u, a.to) {
        AddEdgeArcs(AdjacencyOf(init), e, u, a);
      }
    }
  }

  lemma AddEdgeArcs(m: map<NodeId, seq<Arc>>, e: RoadEdge, u: NodeId, a: Arc)
    ensures a in Listed(AddEdge(m, e), u) <==> a in Listed(m, u) || (a.edge == e && Crosses(e, u, a.to))
  {
  }

  lemma SortArcsKeeps(m: map<NodeId, seq<Arc>>, u: NodeId, a: Arc)
    ensures a in Listed(SortArcs(m), u) <==> a in Listed(m, u)
  {
    ArcLessWeak();
    if u in m { SortedMembers(ArcLess, m[u]); }
  }

  // ----- the query and the answer

  function NodeIds(s: Snapshot): set<NodeId> {
    set n | n in s.nodes :: n.nodeId
  }

  /** The arguments of a path query. */
  datatype Trip = Trip(start: NodeId, goal: NodeId, objective: Objective, vehicleWeight: real, excluded: set<EdgeId>)

  function NetFor(s: Snapshot, t: Trip): Net {
    UsableNet(s, t.vehicleWeight, t.excluded)
  }

  /** What the code relies on: unique edge ids, listed risk levels, no negative weight. */
  ghost predicate Searchable(s: Snapshot, t: Trip) {
    && UniqueIds(s.edges)
    && (forall e :: e in s.edges ==> e.riskLevel in RISK_PENALTIES)
    && NonNegative(NetFor(s, t), t.objective)
  }

  function QueryOf(s: Snapshot, t: Trip): Query {
    var edges := UsableEdges(s.edges, t.vehicleWeight, t.excluded);
    Query(ById(edges), SortArcs(AdjacencyOf(edges)), t.start, t.goal, t.objective)
  }

  lemma QueryValid(s: Snapshot, t: Trip)
    requires Searchable(s, t) && t.start != t.goal
    ensures ValidQuery(QueryOf(s, t))
  {
    var q := QueryOf(s, t);
    var edges := UsableEdges(s.edges, t.vehicleWeight, t.excluded);
    ByIdMembers(edges);
    AdjacencyArcs(edges);
    forall u, a ensures a in ArcsFrom(q, u) <==> IsArc(q.net, u, a) {
      SortArcsKeeps(AdjacencyOf(edges), u, a);
      assert ArcsFrom(q, u) == Listed(q.adjacency, u);
    }
  }

  /** Minutes shown to people: recomputed from the edge ids and rounded up. */
  function DisplayMinutes(s: Snapshot, ids: seq<EdgeId>): int {
    Ceiling(Cost(ById(s.edges), Fastest, ids))
  }

  function ResultOf(s: Snapshot, objective: Objective, top: Entry, visited: nat): PathResult {
    PathResult(objective, top.nodes, top.tag.ids, Quantize(top.distance, 2),
               DisplayMinutes(s, top.tag.ids), top.risk, visited)
  }

  ghost function Find(s: Snapshot, t: Trip): Option<PathResult>
    requires Searchable(s, t)
  {
    if t.start !in NodeIds(s) || t.goal !in NodeIds(s) then None
    else if t.start == t.goal then Some(PathResult(t.objective, [t.start], [], Decimal(0, 2), 0, 0, 0))
    else
      var q := QueryOf(s, t);
      QueryValid(s, t);
      InitialInv(q);
      var final := Final(q, Initial(q));
      if final.heap == [] then None
      else Some(ResultOf(s, t.objective, final.heap[LeastIndex(final.heap)], |final.done| + 1))
  }

  // ----- the code

  lemma AdjacencyStep(edges: seq<RoadEdge>, k: nat, vehicleWeight: real, excluded: set<EdgeId>)
    requires k < |edges|
    ensures var before := UsableEdges(edges[..k], vehicleWeight, excluded);
      AdjacencyOf(UsableEdges(edges[..k + 1], vehicleWeight, excluded))
      == if Available(edges[k], vehicleWeight, excluded) then AddEdge(AdjacencyOf(before), edges[k])
        else AdjacencyOf(before)
  {
    var before := UsableEdges(edges[..k], vehicleWeight, excluded);
    var after := UsableEdges(edges[..k + 1], vehicleWeight, excluded);
    assert edges[..k + 1][..k] == edges[..k];
    assert after == before + if Available(edges[k], vehicleWeight, excluded) then [edges[k]] else [];
    assert after == before || after[..|after| - 1] == before;
  }

  method BuildAdjacency(s: Snapshot, vehicleWeight: real, excluded: set<EdgeId>)
    returns (adjacency: map<NodeId, seq<Arc>>)
    ensures adjacency == SortArcs(AdjacencyOf(UsableEdges(s.edges, vehicleWeight, excluded)))
  {
    adjacency := map[];
    for k := 0 to |s.edges|
      invariant adjacency == AdjacencyOf(UsableEdges(s.edges[..k], vehicleWeight, excluded))
    {
      var e := s.edges[k];
      AdjacencyStep(s.edges, k, vehicleWeight, excluded);
      if Available(e, vehicleWeight, excluded) {
        adjacency := AddArc(adjacency, e.fromNode, Arc(e.toNode, e));
        if e.bidirectional {
          adjacency := AddArc(adjacency, e.toNode, Arc(e.fromNode, e));
        }
      }
    }
    assert s.edges[..|s.edges|] == s.edges;
    adjacency := SortArcs(adjacency);
  }

  /** One neighbour: skipped when it does not improve the best label, pushed otherwise. */
  method RelaxNeighbour(q: Query, ghost done: map<NodeId, Entry>, cur: Entry, arc: Arc,
                        best0: map<NodeId, Label>, heap0: seq<Entry>)
    returns (best: map<NodeId, Label>, heap: seq<Entry>)
    ensures State(best, heap, done) == Relax(q, State(best0, heap0, done), cur, arc)
  {
    best, heap := best0, heap0;
    var candidate := Label(cur.tag.cost + Weight(arc.edge, q.objective), cur.tag.ids + [arc.edge.edgeId]);
    if arc.to in best && !Less(candidate, best[arc.to]) {
      return;
    }
    best := best[arc.to := candidate];
    heap := heap + [Entry(candidate, arc.to, cur.nodes + [arc.to],
                          cur.distance + arc.edge.distance.Value(), cur.risk + RiskPenalty(arc.edge))];
  }

  /** The inner loop of the search: relax every arc of the settled entry. */
  method Expand(q: Query, ghost s: State, cur: Entry, best0: map<NodeId, Label>, heap0: seq<Entry>)
    returns (best: map<NodeId, Label>, heap: seq<Entry>)
    requires s.best == best0 && s.heap == heap0
    ensures State(best, heap, s.done) == RelaxAll(q, s, cur, ArcsFrom(q, cur.node))
  {
    best, heap := best0, heap0;
    var arcs := ArcsFrom(q, cur.node);
    for k := 0 to |arcs|
      invariant RelaxAll(q, State(best, heap, s.done), cur, arcs[k..]) == RelaxAll(q, s, cur, arcs)
    {
      RelaxNext(q, State(best, heap, s.done), cur, arcs, k);
      best, heap := RelaxNeighbour(q, s.done, cur, arcs[k], best, heap);
    }
  }

  /** One round of the loop that discards a stale entry. */
  lemma StaleRound(q: Query, s: State)
    requires ValidQuery(q) && Inv(q, s) && s.heap != []
    requires var top := s.heap[LeastIndex(s.heap)]; top.node !in s.best || s.best[top.node] != top.tag
    ensures var next := s.(heap := Without(s.heap, LeastIndex(s.heap)));
      Inv(q, next) && Final(q, next) == Final(q, s)
  {
    assert s.heap[LeastIndex(s.heap)] in s.heap;
    DropStale(q, s, LeastIndex(s.heap));
  }

  function Round(q: Query, s: State): State
    requires s.heap != []
  {
    var i := LeastIndex(s.heap);
    RelaxAll(q, Settle(s, i), s.heap[i], ArcsFrom(q, s.heap[i].node))
  }

  /** One round of the loop that settles and expands a node. */
  lemma SettlingRound(q: Query, s: State)
    requires ValidQuery(q) && Inv(q, s) && s.heap != []
    requires var top := s.heap[LeastIndex(s.heap)];
      top.node != q.goal && top.node in s.best && s.best[top.node] == top.tag
    ensures Inv(q, Round(q, s)) && Final(q, Round(q, s)) == Final(q, s)
    ensures Unsettled(q, Round(q, s)) < Unsettled(q, s)
    ensures |Round(q, s).done| == |s.done| + 1
    ensures Round(q, s).done == Settle(s, LeastIndex(s.heap)).done
  {
    var i := LeastIndex(s.heap);
    assert s.heap[i] in s.heap;
    ExpandKeeps(q, s, i);
    EntryInUniverse(q, s.heap[i]);
    SettleDecreases(q, s, Round(q, s), s.heap[i]);
  }

  lemma LastRound(q: Query, s: State)
    requires ValidQuery(q) && Inv(q, s)
    ensures Over(q, s) ==> Final(q, s) == s
    ensures forall e :: e in s.heap ==> e.node in s.best
  {
  }

  /** The main loop: returns the entry that settles the goal and how many nodes were settled. */
  method RunSearch(q: Query) returns (found: Option<Entry>, visited: nat)
    requires ValidQuery(q) && Inv(q, Initial(q))
    ensures var final := Final(q, Initial(q));
      if final.heap == [] then found == None
      else found == Some(final.heap[LeastIndex(final.heap)]) && visited == |final.done| + 1
  {
    var best := map[q.start := Label(0.0, [])];
    var heap := [Entry(Label(0.0, []), q.start, [q.start], 0.0, 0)];
    visited := 0;
    ghost var s := Initial(q);
    while heap != []
      invariant s.best == best && s.heap == heap && visited == |s.done|
      invariant Inv(q, s) && Final(q, s) == Final(q, Initial(q))
      decreases Unsettled(q, s), |heap|
    {
      LastRound(q, s);
      var i := LeastIndex(heap);
      var top := heap[i];
      assert top in s.heap;
      heap := Without(heap, i);
      if best[top.node] != top.tag {
        StaleRound(q, s);
        s := s.(heap := heap);
      } else {
        visited := visited + 1;
        if top.node == q.goal {
          return Some(top), visited;
        }
        SettlingRound(q, s);
        best, heap := Expand(q, Settle(s, i), top, best, heap);
        s := Round(q, s);
      }
    }
    LastRound(q, s);
    found := None;
  }

  method FindPath(s: Snapshot, t: Trip) returns (r: Option<PathResult>)
    requires Searchable(s, t)
    ensures r == Find(s, t)
  {
    var nodeIds := NodeIds(s);
    if t.start !in nodeIds || t.goal !in nodeIds {
      return None;
    }
    if t.start == t.goal {
      return Some(PathResult(t.objective, [t.start], [], Decimal(0, 2), 0, 0, 0));
    }
    var adjacency := BuildAdjacency(s, t.vehicleWeight, t.excluded);
    var q := Query(NetFor(s, t), adjacency, t.start, t.goal, t.objective);
    QueryValid(s, t);
    InitialInv(q);
    var found, visited := RunSearch(q);
    match found
    case None => r := None;
    case Some(top) => r := Some(ResultOf(s, t.objective, top, visited));
  }
}
