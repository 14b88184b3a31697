/** The label-setting search behind the path finder: its steps as functions, the
    invariant every step keeps, and what the final state says about all walks. */
module Search {
  import opened Orders
  import opened RoadNetwork

  // ----- labels: (cost, edge ids), compared as Python compares tuples

  datatype Label = Label(cost: real, ids: seq<EdgeId>)

  predicate Less(a: Label, b: Label) {
    a.cost < b.cost || (a.cost == b.cost && IdsLess(a.ids, b.ids))
  }

  predicate Leq(a: Label, b: Label) {
    a == b || Less(a, b)
  }

  lemma LabelOrder(a: Label, b: Label, c: Label)
    ensures !Less(a, a)
    ensures Less(a, b) && Less(b, c) ==> Less(a, c)
    ensures Less(a, b) || a == b || Less(b, a)
  {
    StringLessTotal();
    LexIrreflexive(StringLess, a.ids);
    LexTotal(StringLess, a.ids, b.ids);
    if IdsLess(a.ids, b.ids) && IdsLess(b.ids, c.ids) {
      LexTransitive(StringLess, a.ids, b.ids, c.ids);
    }
  }

  lemma LeqTransitive(a: Label, b: Label, c: Label)
    requires Leq(a, b) && Leq(b, c)
    ensures Leq(a, c)
    ensures a != b || b != c ==> Less(a, c)
  {
    LabelOrder(a, b, c);
  }

  function Extend(l: Label, e: RoadEdge, objective: Objective): Label {
    Label(l.cost + Weight(e, objective), l.ids + [e.edgeId])
  }

  /** Driving one more edge always gives a larger label, even at weight zero. */
  lemma ExtendGrows(l: Label, e: RoadEdge, objective: Objective)
    requires Weight(e, objective) >= 0.0
    ensures Less(l, Extend(l, e, objective))
  {
    StringLessTotal();
    LexPrefix(StringLess, l.ids, l.ids + [e.edgeId]);
  }

  // ----- the search

  datatype Arc = Arc(to: NodeId, edge: RoadEdge)

  datatype Entry = Entry(tag: Label, node: NodeId, nodes: seq<NodeId>, distance: real, risk: int)

  datatype Query = Query(net: Net, adjacency: map<NodeId, seq<Arc>>, start: NodeId, goal: NodeId, objective: Objective)

  /** `best`, `heap` as in the code; `done` records the entries already expanded. */
  datatype State = State(best: map<NodeId, Label>, heap: seq<Entry>, done: map<NodeId, Entry>)

  function ArcsFrom(q: Query, u: NodeId): seq<Arc> {
    if u in q.adjacency then q.adjacency[u] else []
  }

  predicate IsArc(net: Net, u: NodeId, a: Arc) {
    a.edge.edgeId in net && net[a.edge.edgeId] == a.edge && Crosses(a.edge, u, a.to)
  }

  ghost predicate ValidQuery(q: Query) {
    && q.start != q.goal
    && NonNegative(q.net, q.objective)
    && (forall id :: id in q.net ==> q.net[id].edgeId == id)
    && (forall u, a :: a in ArcsFrom(q, u) <==> IsArc(q.net, u, a))
  }

  function Initial(q: Query): State {
    State(map[q.start := Label(0.0, [])], [Entry(Label(0.0, []), q.start, [q.start], 0.0, 0)], map[])
  }

  /** Position of a least label in the heap: what heappop takes. */
  function LeastIndex(heap: seq<Entry>): (i: nat)
    requires heap != []
    ensures i < |heap|
    ensures forall e :: e in heap ==> Leq(heap[i].tag, e.tag)
  {
    var last := |heap| - 1;
    if last == 0 then 0
    else
      var i := LeastIndex(heap[..last]);
      assert heap == heap[..last] + [heap[last]];
      LabelOrder(heap[i].tag, heap[last].tag, heap[last].tag);
      if Less(heap[last].tag, heap[i].tag) then
        assert forall e :: e in heap[..last] ==> Leq(heap[last].tag, e.tag) by {
          forall e | e in heap[..last] ensures Leq(heap[last].tag, e.tag) {
            LeqTransitive(heap[last].tag, heap[i].tag, e.tag);
          }
        }
        last
      else i
  }

  function Without(heap: seq<Entry>, i: nat): seq<Entry>
    requires i < |heap|
  {
    heap[..i] + heap[i + 1..]
  }

  function Successor(q: Query, cur: Entry, a: Arc): Entry {
    Entry(Extend(cur.tag, a.edge, q.objective), a.to, cur.nodes + [a.to],
          cur.distance + a.edge.distance.Value(), cur.risk + RiskPenalty(a.edge))
  }

  predicate Improves(best: map<NodeId, Label>, e: Entry) {
    e.node !in best || Less(e.tag, best[e.node])
  }

  function Push(s: State, next: Entry): State {
    State(s.best[next.node := next.tag], s.heap + [next], s.done)
  }

  function Relax(q: Query, s: State, cur: Entry, a: Arc): State {
    var next := Successor(q, cur, a);
    if Improves(s.best, next) then Push(s, next) else s
  }

  function RelaxAll(q: Query, s: State, cur: Entry, arcs: seq<Arc>): State
    decreases |arcs|
  {
    if arcs == [] then s else RelaxAll(q, Relax(q, s, cur, arcs[0]), cur, arcs[1..])
  }

  lemma RelaxNext(q: Query, s: State, cur: Entry, arcs: seq<Arc>, k: nat)
    requires k < |arcs|
    ensures RelaxAll(q, s, cur, arcs[k..]) == RelaxAll(q, Relax(q, s, cur, arcs[k]), cur, arcs[k + 1..])
  {
    assert arcs[k..][1..] == arcs[k + 1..];
  }

  /** Takes entry `i` off the heap as the final label of its node. */
  function Settle(s: State, i: nat): State
    requires i < |s.heap|
  {
    State(s.best, Without(s.heap, i), s.done[s.heap[i].node := s.heap[i]])
  }

  // ----- the invariant

  /** An entry describes a walk without repeated nodes, and carries its exact folds. */
  ghost predicate ValidEntry(q: Query, e: Entry) {
    && WalkFromTo(q.net, q.start, e.node, e.nodes, e.tag.ids)
    && Distinct(e.nodes)
    && e.tag.cost == Cost(q.net, q.objective, e.tag.ids)
    && e.distance == Cost(q.net, Shortest, e.tag.ids)
    && e.risk == RiskCost(q.net, e.tag.ids)
  }

  /** A label determines the whole entry, so the later components of the heap tuples never decide an order. */
  lemma LabelDeterminesEntry(q: Query, e: Entry, f: Entry)
    requires ValidEntry(q, e) && ValidEntry(q, f) && e.tag == f.tag
    ensures e == f
  {
    NodesDetermined(q.net, e.nodes, f.nodes, e.tag.ids);
  }

  /** All nodes of an entry but the last are settled. */
  ghost predicate Grounded(s: State, e: Entry) {
    forall i :: 0 <= i < |e.nodes| - 1 ==> e.nodes[i] in s.done
  }

  ghost predicate HeapValid(q: Query, s: State) {
    forall e :: e in s.heap ==>
      ValidEntry(q, e) && Grounded(s, e) && e.node in s.best && Leq(s.best[e.node], e.tag)
      && (e.node in s.done ==> e.tag != s.best[e.node])
  }

  /** No two heap entries carry the same label for the same node. */
  ghost predicate HeapDistinct(heap: seq<Entry>) {
    forall i, j :: 0 <= i < j < |heap| && heap[i].node == heap[j].node ==> heap[i].tag != heap[j].tag
  }

  ghost predicate DoneValid(q: Query, s: State) {
    forall v :: v in s.done ==>
      ValidEntry(q, s.done[v]) && Grounded(s, s.done[v]) && s.done[v].node == v
      && v in s.best && s.best[v] == s.done[v].tag
  }

  /** Settled labels are below everything still in the heap. */
  ghost predicate DoneBelow(s: State) {
    forall v, e :: v in s.done && e in s.heap ==> Leq(s.done[v].tag, e.tag)
  }

  ghost predicate InHeap(s: State, v: NodeId, l: Label) {
    exists e :: e in s.heap && e.node == v && e.tag == l
  }

  /** Every labelled node is settled or waits in the heap under its best label. */
  ghost predicate Frontier(q: Query, s: State) {
    q.start in s.best && forall v :: v in s.best && v !in s.done ==> InHeap(s, v, s.best[v])
  }

  ghost predicate ArcRelaxed(q: Query, s: State, u: NodeId, a: Arc)
    requires u in s.best
  {
    a.to in s.best && Leq(s.best[a.to], Extend(s.best[u], a.edge, q.objective))
  }

  ghost predicate Expanded(q: Query, s: State, u: NodeId)
    requires u in s.best
  {
    forall a :: a in ArcsFrom(q, u) ==> ArcRelaxed(q, s, u, a)
  }

  ghost predicate Core(q: Query, s: State) {
    HeapValid(q, s) && HeapDistinct(s.heap) && DoneValid(q, s) && DoneBelow(s) && Frontier(q, s)
  }

  ghost predicate Inv(q: Query, s: State) {
    && Core(q, s)
    && (forall u :: u in s.done ==> Expanded(q, s, u))
    && q.goal !in s.done
  }

  lemma InitialInv(q: Query)
    requires ValidQuery(q)
    ensures Inv(q, Initial(q))
  {
  }

  lemma WithoutMembers(heap: seq<Entry>, i: nat)
    requires i < |heap|
    ensures forall e :: e in Without(heap, i) ==> e in heap
    ensures forall e :: e in heap && e != heap[i] ==> e in Without(heap, i)
    ensures HeapDistinct(heap) ==> HeapDistinct(Without(heap, i))
    ensures HeapDistinct(heap) ==>
              forall e :: e in Without(heap, i) && e.node == heap[i].node ==> e.tag != heap[i].tag
  {
  }

  /** Discarding a stale entry keeps the invariant. */
  lemma DropStale(q: Query, s: State, i: nat)
    requires Inv(q, s) && i < |s.heap| && s.best[s.heap[i].node] != s.heap[i].tag
    ensures Inv(q, s.(heap := Without(s.heap, i)))
  {
    var s' := s.(heap := Without(s.heap, i));
    WithoutMembers(s.heap, i);
    assert HeapValid(q, s');
    assert Frontier(q, s') by { FrontierKept(q, s, s'); }
    ExpandedKept(q, s, s');
  }

  lemma FrontierKept(q: Query, s: State, s': State)
    requires Frontier(q, s) && s'.best == s.best && s.done.Keys <= s'.done.Keys
    requires forall e :: e in s.heap && e.node !in s'.done && e.node in s.best && e.tag == s.best[e.node] ==>
             e in s'.heap
    ensures Frontier(q, s')
  {
  }

  lemma ExpandedKept(q: Query, s: State, s': State)
    requires s'.best == s.best && forall u :: u in s.done ==> u in s.best && Expanded(q, s, u)
    ensures forall u :: u in s.done ==> Expanded(q, s', u)
  {
  }

  ghost predicate AllBelow(s: State, cur: Entry) {
    forall v :: v in s.done ==> Leq(s.done[v].tag, cur.tag)
  }

  ghost predicate OthersExpanded(q: Query, s: State, cur: Entry) {
    forall u :: u in s.done && u != cur.node ==> u in s.best && Expanded(q, s, u)
  }

  /** The state in the middle of expanding `cur`: settled, and largest among the settled. */
  ghost predicate Expanding(q: Query, s: State, cur: Entry) {
    && Core(q, s)
    && cur.node in s.done && s.done[cur.node] == cur
    && AllBelow(s, cur) && OthersExpanded(q, s, cur) && q.goal !in s.done
  }

  lemma SettleStarts(q: Query, s: State, i: nat)
    requires Inv(q, s) && i < |s.heap| && s.best[s.heap[i].node] == s.heap[i].tag && s.heap[i].node != q.goal
    requires forall e :: e in s.heap ==> Leq(s.heap[i].tag, e.tag)
    ensures s.heap[i].node !in s.done
    ensures Expanding(q, Settle(s, i), s.heap[i])
  {
    var cur, s' := s.heap[i], Settle(s, i);
    assert cur in s.heap;
    WithoutMembers(s.heap, i);
    SettleHeap(q, s, i);
    SettleDone(q, s, i);
    FrontierKept(q, s, s');
    ExpandedKept(q, s, s');
  }

  lemma SettleHeap(q: Query, s: State, i: nat)
    requires HeapValid(q, s) && HeapDistinct(s.heap) && i < |s.heap| && s.best[s.heap[i].node] == s.heap[i].tag
    ensures HeapValid(q, Settle(s, i)) && HeapDistinct(Settle(s, i).heap)
  {
  }

  lemma SettleDone(q: Query, s: State, i: nat)
    requires HeapValid(q, s) && DoneValid(q, s) && DoneBelow(s) && i < |s.heap|
    requires s.best[s.heap[i].node] == s.heap[i].tag
    requires forall e :: e in s.heap ==> Leq(s.heap[i].tag, e.tag)
    ensures DoneValid(q, Settle(s, i)) && DoneBelow(Settle(s, i))
  {
  }

  lemma SuccessorFolds(q: Query, cur: Entry, a: Arc)
    requires ValidEntry(q, cur) && IsArc(q.net, cur.node, a)
    ensures WalkFromTo(q.net, q.start, a.to, Successor(q, cur, a).nodes, Successor(q, cur, a).tag.ids)
    ensures var next := Successor(q, cur, a);
      next.tag.cost == Cost(q.net, q.objective, next.tag.ids) && next.distance == Cost(q.net, Shortest, next.tag.ids)
      && next.risk == RiskCost(q.net, next.tag.ids)
  {
  }

  lemma SuccessorValid(q: Query, s: State, cur: Entry, a: Arc)
    requires ValidEntry(q, cur) && IsArc(q.net, cur.node, a)
    requires Grounded(s, cur) && cur.node in s.done && a.to !in s.done
    ensures ValidEntry(q, Successor(q, cur, a)) && Grounded(s, Successor(q, cur, a))
  {
    var next := Successor(q, cur, a);
    SuccessorFolds(q, cur, a);
    forall k | 0 <= k < |cur.nodes| ensures cur.nodes[k] in s.done && next.nodes[k] == cur.nodes[k] {
      if k == |cur.nodes| - 1 { assert cur.nodes[k] == cur.node; }
    }
  }

  /** A settled node is never relabelled, so it is never settled twice. */
  lemma SettledStays(q: Query, s: State, cur: Entry, a: Arc)
    requires ValidQuery(q) && Expanding(q, s, cur) && a in ArcsFrom(q, cur.node)
    ensures Less(cur.tag, Successor(q, cur, a).tag)
    ensures forall v :: v in s.done ==> Less(s.done[v].tag, Successor(q, cur, a).tag)
    ensures a.to in s.done ==> !Improves(s.best, Successor(q, cur, a))
  {
    var l := Successor(q, cur, a).tag;
    assert IsArc(q.net, cur.node, a);
    ExtendGrows(cur.tag, a.edge, q.objective);
    forall v | v in s.done ensures Less(s.done[v].tag, l) { LeqTransitive(s.done[v].tag, cur.tag, l); }
    if a.to in s.done { LabelOrder(s.best[a.to], l, s.best[a.to]); }
  }

  lemma PushAboveNone(q: Query, s: State, next: Entry)
    requires HeapValid(q, s) && Improves(s.best, next)
    ensures forall e :: e in s.heap && e.node == next.node ==> Less(next.tag, e.tag) && e.tag != next.tag
  {
    forall e | e in s.heap && e.node == next.node ensures Less(next.tag, e.tag) && e.tag != next.tag {
      LeqTransitive(next.tag, s.best[next.node], e.tag);
      LabelOrder(next.tag, e.tag, e.tag);
    }
  }

  lemma PushKeepsHeap(q: Query, s: State, next: Entry)
    requires HeapValid(q, s) && ValidEntry(q, next) && Grounded(s, next)
    requires next.node !in s.done && Improves(s.best, next)
    ensures HeapValid(q, Push(s, next))
  {
    PushAboveNone(q, s, next);
    var s' := Push(s, next);
    forall e | e in s'.heap ensures ValidEntry(q, e) && Grounded(s', e) && Leq(s'.best[e.node], e.tag) {
      if e != next { assert e in s.heap && Grounded(s, e); }
    }
  }

  lemma PushKeepsDistinct(q: Query, s: State, next: Entry)
    requires HeapValid(q, s) && HeapDistinct(s.heap) && Improves(s.best, next)
    ensures HeapDistinct(Push(s, next).heap)
  {
    PushAboveNone(q, s, next);
    var h := Push(s, next).heap;
    forall i, j | 0 <= i < j < |h| && h[i].node == h[j].node ensures h[i].tag != h[j].tag {
      assert h[i] in s.heap;
    }
  }

  lemma PushKeepsFrontier(q: Query, s: State, next: Entry)
    requires Frontier(q, s)
    ensures Frontier(q, Push(s, next))
  {
  }

  lemma PushKeepsDone(q: Query, s: State, next: Entry)
    requires DoneValid(q, s) && DoneBelow(s) && next.node !in s.done
    requires forall v :: v in s.done ==> Leq(s.done[v].tag, next.tag)
    ensures DoneValid(q, Push(s, next)) && DoneBelow(Push(s, next))
  {
  }

  lemma PushKeepsCore(q: Query, s: State, next: Entry)
    requires Core(q, s) && ValidEntry(q, next) && Grounded(s, next)
    requires next.node !in s.done && Improves(s.best, next)
    requires forall v :: v in s.done ==> Leq(s.done[v].tag, next.tag)
    ensures Core(q, Push(s, next))
  {
    PushKeepsHeap(q, s, next);
    PushKeepsDistinct(q, s, next);
    PushKeepsFrontier(q, s, next);
    PushKeepsDone(q, s, next);
  }

  /** Labels only improve, so an arc once relaxed stays relaxed. */
  lemma RelaxKeepsRelaxed(q: Query, s: State, cur: Entry, a: Arc, u: NodeId, b: Arc)
    requires u in s.best && ArcRelaxed(q, s, u, b)
    requires u == a.to ==> !Improves(s.best, Successor(q, cur, a))
    ensures u in Relax(q, s, cur, a).best && ArcRelaxed(q, Relax(q, s, cur, a), u, b)
  {
    if b.to == a.to && Improves(s.best, Successor(q, cur, a)) {
      LeqTransitive(Successor(q, cur, a).tag, s.best[b.to], Extend(s.best[u], b.edge, q.objective));
    }
  }

  lemma RelaxKeepsArcs(q: Query, s: State, cur: Entry, a: Arc)
    requires ValidQuery(q) && Expanding(q, s, cur) && a in ArcsFrom(q, cur.node)
    ensures forall u, b :: u in s.done && ArcRelaxed(q, s, u, b) ==>
              u in Relax(q, s, cur, a).best && ArcRelaxed(q, Relax(q, s, cur, a), u, b)
    ensures ArcRelaxed(q, Relax(q, s, cur, a), cur.node, a)
  {
    SettledStays(q, s, cur, a);
    var next, s' := Successor(q, cur, a), Relax(q, s, cur, a);
    forall u, b | u in s.done && ArcRelaxed(q, s, u, b) ensures u in s'.best && ArcRelaxed(q, s', u, b) {
      RelaxKeepsRelaxed(q, s, cur, a, u, b);
    }
    LabelOrder(next.tag, if a.to in s.best then s.best[a.to] else next.tag, next.tag);
  }

  lemma RelaxKeepsCore(q: Query, s: State, cur: Entry, a: Arc)
    requires ValidQuery(q) && Expanding(q, s, cur) && a in ArcsFrom(q, cur.node)
    ensures Core(q, Relax(q, s, cur, a))
  {
    SettledStays(q, s, cur, a);
    if Improves(s.best, Successor(q, cur, a)) {
      assert IsArc(q.net, cur.node, a);
      SuccessorValid(q, s, cur, a);
      PushKeepsCore(q, s, Successor(q, cur, a));
    }
  }

  lemma RelaxKeeps(q: Query, s: State, cur: Entry, a: Arc)
    requires ValidQuery(q) && Expanding(q, s, cur) && a in ArcsFrom(q, cur.node)
    ensures Expanding(q, Relax(q, s, cur, a), cur) && Relax(q, s, cur, a).done == s.done
  {
    RelaxKeepsCore(q, s, cur, a);
    RelaxKeepsExpanded(q, s, cur, a);
  }

  lemma RelaxKeepsExpanded(q: Query, s: State, cur: Entry, a: Arc)
    requires ValidQuery(q) && Expanding(q, s, cur) && a in ArcsFrom(q, cur.node)
    ensures OthersExpanded(q, Relax(q, s, cur, a), cur)
  {
    var s' := Relax(q, s, cur, a);
    RelaxKeepsArcs(q, s, cur, a);
    forall u | u in s.done && u != cur.node ensures Expanded(q, s', u) {
      forall b | b in ArcsFrom(q, u) ensures ArcRelaxed(q, s', u, b) { assert ArcRelaxed(q, s, u, b); }
    }
  }

  lemma {:induction false} RelaxAllKeeps(q: Query, s: State, cur: Entry, arcs: seq<Arc>)
    requires ValidQuery(q) && Expanding(q, s, cur) && forall a :: a in arcs ==> a in ArcsFrom(q, cur.node)
    ensures Expanding(q, RelaxAll(q, s, cur, arcs), cur)
    ensures RelaxAll(q, s, cur, arcs).done == s.done
    ensures forall b :: b in arcs || ArcRelaxed(q, s, cur.node, b) ==>
            ArcRelaxed(q, RelaxAll(q, s, cur, arcs), cur.node, b)
    decreases |arcs|
  {
    if arcs != [] {
      RelaxKeeps(q, s, cur, arcs[0]);
      RelaxKeepsArcs(q, s, cur, arcs[0]);
      RelaxAllKeeps(q, Relax(q, s, cur, arcs[0]), cur, arcs[1..]);
    }
  }

  /** Expanding a settled node over all its arcs restores the invariant. */
  lemma ExpandKeeps(q: Query, s: State, i: nat)
    requires ValidQuery(q) && Inv(q, s) && i < |s.heap| && s.best[s.heap[i].node] == s.heap[i].tag
    requires s.heap[i].node != q.goal && forall e :: e in s.heap ==> Leq(s.heap[i].tag, e.tag)
    ensures s.heap[i].node !in s.done
    ensures Inv(q, RelaxAll(q, Settle(s, i), s.heap[i], ArcsFrom(q, s.heap[i].node)))
    ensures RelaxAll(q, Settle(s, i), s.heap[i], ArcsFrom(q, s.heap[i].node)).done
            == s.done[s.heap[i].node := s.heap[i]]
  {
    SettleStarts(q, s, i);
    RelaxAllKeeps(q, Settle(s, i), s.heap[i], ArcsFrom(q, s.heap[i].node));
  }

  // ----- termination

  /** The start and every end of an edge. */
  ghost function Universe(net: Net, start: NodeId): set<NodeId> {
    {start} + (set id | id in net :: net[id].fromNode) + (set id | id in net :: net[id].toNode)
  }

  lemma EntryInUniverse(q: Query, e: Entry)
    requires ValidEntry(q, e)
    ensures e.node in Universe(q.net, q.start)
  {
  }

  ghost function Unsettled(q: Query, s: State): nat {
    |Universe(q.net, q.start) - s.done.Keys|
  }

  lemma SettleDecreases(q: Query, s: State, s': State, e: Entry)
    requires e.node in Universe(q.net, q.start) && e.node !in s.done && s'.done == s.done[e.node := e]
    ensures Unsettled(q, s') < Unsettled(q, s)
  {
    var u, d := Universe(q.net, q.start), s.done.Keys;
    assert s'.done.Keys == d + {e.node};
    SmallerDifference(u, d, e.node);
  }

  lemma SmallerDifference(u: set<NodeId>, d: set<NodeId>, x: NodeId)
    requires x in u && x !in d
    ensures |u - (d + {x})| < |u - d|
  {
    assert u - (d + {x}) == (u - d) - {x};
  }

  // ----- the whole loop

  /** True when the loop is over: nothing left, or the least entry settles the goal. */
  predicate Over(q: Query, s: State) {
    s.heap == [] ||
    var top := s.heap[LeastIndex(s.heap)];
    top.node == q.goal && top.node in s.best && s.best[top.node] == top.tag
  }

  /** The state in which the loop ends. */
  ghost function Final(q: Query, s: State): (r: State)
    requires ValidQuery(q) && Inv(q, s)
    ensures Inv(q, r) && Over(q, r)
    decreases Unsettled(q, s), |s.heap|
  {
    if Over(q, s) then s
    else
      var i := LeastIndex(s.heap);
      var top := s.heap[i];
      assert top in s.heap;
      if s.best[top.node] != top.tag then
        DropStale(q, s, i);
        Final(q, s.(heap := Without(s.heap, i)))
      else
        ExpandKeeps(q, s, i);
        var s' := RelaxAll(q, Settle(s, i), top, ArcsFrom(q, top.node));
        EntryInUniverse(q, top);
        SettleDecreases(q, s, s', top);
        Final(q, s')
  }

  // ----- what the end of the search says about every walk

  /** The last step of a walk is an arc the search knows. */
  lemma LastArc(q: Query, nodes: seq<NodeId>, ids: seq<EdgeId>) returns (u: NodeId, a: Arc)
    requires ValidQuery(q) && IsWalk(q.net, nodes, ids) && ids != []
    ensures IsWalk(q.net, nodes[..|ids|], ids[..|ids| - 1]) && u == nodes[|ids| - 1] == nodes[..|ids|][|ids| - 1]
    ensures a in ArcsFrom(q, u) && a.to == nodes[|ids|]
    ensures Cost(q.net, q.objective, ids) == Cost(q.net, q.objective, ids[..|ids| - 1]) + Weight(a.edge, q.objective)
    ensures a.edge.edgeId == ids[|ids| - 1] && Weight(a.edge, q.objective) >= 0.0
  {
    WalkInit(q.net, nodes, ids);
    u, a := nodes[|ids| - 1], Arc(nodes[|ids|], q.net[ids[|ids| - 1]]);
    assert IsArc(q.net, u, a);
  }

  /** The start is settled or waits in the heap with label zero. */
  lemma StartBound(q: Query, s: State, l: Label)
    requires ValidQuery(q) && Inv(q, s) && (forall e :: e in s.heap ==> Leq(l, e.tag))
    ensures q.start in s.best && s.best[q.start] == Label(0.0, [])
    ensures Leq(l, Label(0.0, [])) || q.start in s.done
  {
  }

  /** Costs: a walk is no cheaper than `l`, or ends at a settled node labelled no dearer. */
  lemma {:induction false} WalkCostBound(q: Query, s: State, l: Label, nodes: seq<NodeId>, ids: seq<EdgeId>)
    requires ValidQuery(q) && Inv(q, s) && (forall e :: e in s.heap ==> Leq(l, e.tag))
    requires IsWalk(q.net, nodes, ids) && nodes[0] == q.start
    ensures var v := nodes[|ids|];
      l.cost <= Cost(q.net, q.objective, ids) || (v in s.done && s.best[v].cost <= Cost(q.net, q.objective, ids))
  {
    var n := |ids|;
    if n == 0 {
      StartBound(q, s, l);
    } else {
      var u, a := LastArc(q, nodes, ids);
      WalkCostBound(q, s, l, nodes[..n], ids[..n - 1]);
      var before := Cost(q.net, q.objective, ids[..n - 1]);
      if u in s.done && s.best[u].cost <= before {
        CostStep(q, s, l, u, a, before);
      }
    }
  }

  lemma CostStep(q: Query, s: State, l: Label, u: NodeId, a: Arc, before: real)
    requires ValidQuery(q) && Inv(q, s) && (forall e :: e in s.heap ==> Leq(l, e.tag))
    requires u in s.done && s.best[u].cost <= before && a in ArcsFrom(q, u)
    ensures var here := before + Weight(a.edge, q.objective);
      l.cost <= here || (a.to in s.done && s.best[a.to].cost <= here)
  {
    assert Expanded(q, s, u) && ArcRelaxed(q, s, u, a);
    if a.to !in s.done { assert InHeap(s, a.to, s.best[a.to]); }
  }

  function LabelOf(net: Net, objective: Objective, ids: seq<EdgeId>): Label {
    Label(Cost(net, objective, ids), ids)
  }

  /** A smaller label stays smaller after one more edge, unless the larger one merely continues it for free. */
  lemma ExtendMonotone(a: Label, b: Label, e: RoadEdge, objective: Objective)
    requires Leq(a, b) && !(a.cost == b.cost && a.ids < b.ids)
    ensures Leq(Extend(a, e, objective), Extend(b, e, objective))
  {
    if a != b && a.cost == b.cost {
      StringLessTotal();
      LexAppend(StringLess, a.ids, b.ids, [e.edgeId], [e.edgeId]);
    }
  }

  /** The walks that the full label order ranks: those without repeated nodes, and all of them at positive weights. */
  ghost predicate Ranked(net: Net, objective: Objective, nodes: seq<NodeId>) {
    Distinct(nodes) || Positive(net, objective)
  }

  /** A ranked walk does not continue another walk to its own end for free. */
  lemma NoFreeDetour(net: Net, objective: Objective, u: NodeId, v: NodeId,
                     short: seq<NodeId>, a: seq<EdgeId>, nodes: seq<NodeId>, b: seq<EdgeId>)
    requires WalkFromTo(net, u, v, short, a) && WalkFromTo(net, u, v, nodes, b) && Ranked(net, objective, nodes)
    ensures !(Cost(net, objective, a) == Cost(net, objective, b) && a < b)
  {
    if a < b {
      if Positive(net, objective) {
        LongerCostsMore(net, objective, a, b);
      } else {
        var n := |a|;
        assert b[..n] == a;
        assert IsWalk(net, nodes[..n + 1], a);
        NodesDetermined(net, short, nodes[..n + 1], a);
      }
    }
  }

  lemma SettledIsNoDetour(q: Query, s: State, nodes: seq<NodeId>, ids: seq<EdgeId>)
    requires DoneValid(q, s) && IsWalk(q.net, nodes, ids) && nodes[0] == q.start && Ranked(q.net, q.objective, nodes)
    requires nodes[|ids|] in s.done
    ensures nodes[|ids|] in s.best
    ensures var known := s.best[nodes[|ids|]]; !(known.cost == Cost(q.net, q.objective, ids) && known.ids < ids)
  {
    var u := nodes[|ids|];
    var e := s.done[u];
    assert ValidEntry(q, e);
    NoFreeDetour(q.net, q.objective, q.start, u, e.nodes, e.tag.ids, nodes, ids);
  }

  /** Labels: the same bound in the full (cost, ids) order, for every ranked walk. */
  lemma {:induction false} WalkLabelBound(q: Query, s: State, l: Label, nodes: seq<NodeId>, ids: seq<EdgeId>)
    requires ValidQuery(q) && Inv(q, s) && (forall e :: e in s.heap ==> Leq(l, e.tag))
    requires IsWalk(q.net, nodes, ids) && nodes[0] == q.start && Ranked(q.net, q.objective, nodes)
    ensures var v, here := nodes[|ids|], LabelOf(q.net, q.objective, ids);
      Leq(l, here) || (v in s.done && Leq(s.best[v], here))
  {
    var n := |ids|;
    if n == 0 {
      StartBound(q, s, l);
    } else {
      var u, a := LastArc(q, nodes, ids);
      var init := ids[..n - 1];
      WalkLabelBound(q, s, l, nodes[..n], init);
      var before, here := LabelOf(q.net, q.objective, init), LabelOf(q.net, q.objective, ids);
      assert here == Extend(before, a.edge, q.objective) by { assert ids == init + [ids[n - 1]]; }
      if Leq(l, before) {
        ExtendGrows(before, a.edge, q.objective);
        LeqTransitive(l, before, here);
      } else {
        SettledIsNoDetour(q, s, nodes[..n], init);
        LabelStep(q, s, l, u, a, before);
      }
    }
  }

  lemma LabelStep(q: Query, s: State, l: Label, u: NodeId, a: Arc, before: Label)
    requires ValidQuery(q) && Inv(q, s) && (forall e :: e in s.heap ==> Leq(l, e.tag))
    requires u in s.done && Leq(s.best[u], before) && a in ArcsFrom(q, u)
    requires !(s.best[u].cost == before.cost && s.best[u].ids < before.ids)
    ensures var here := Extend(before, a.edge, q.objective);
      Leq(l, here) || (a.to in s.done && Leq(s.best[a.to], here))
  {
    var here := Extend(before, a.edge, q.objective);
    assert Expanded(q, s, u) && ArcRelaxed(q, s, u, a);
    ExtendMonotone(s.best[u], before, a.edge, q.objective);
    LeqTransitive(s.best[a.to], Extend(s.best[u], a.edge, q.objective), here);
    if a.to !in s.done {
      assert InHeap(s, a.to, s.best[a.to]);
      LeqTransitive(l, s.best[a.to], here);
    }
  }
}
