/** FakeGraphMemoryRepository: entities and relations kept in place, and bounded
    breadth-first enumeration of simple paths. */
module GraphMemory {
  import opened Orders

  /** `key` is the entity_key "type:id". */
  datatype Entity = Entity(key: string, displayName: string)

  datatype Relation = Relation(source: Entity, relationType: string, target: Entity, evidence: string, version: nat)

  function RelationKey(r: Relation): string {
    r.source.key + "|" + r.relationType + "|" + r.target.key
  }

  datatype Path = Path(entities: seq<Entity>, relations: seq<Relation>)

  datatype PathsOutcome = InvalidHops | InvalidLimit | Paths(paths: seq<Path>)

  // ----- simple paths

  /** A relation joins its two entities in both directions. */
  predicate Links(r: Relation, key: string, next: Entity) {
    (r.source.key == key && next == r.target) || (r.target.key == key && next == r.source)
  }

  ghost predicate DistinctKeys(es: seq<Entity>) {
    forall i, j :: 0 <= i < j < |es| ==> es[i].key != es[j].key
  }

  /** A path from `start` over known relations that visits no entity twice. */
  ghost predicate IsSimple(rels: seq<Relation>, start: Entity, p: Path) {
    && |p.entities| == |p.relations| + 1 && p.entities[0] == start
    && DistinctKeys(p.entities)
    && forall i :: 0 <= i < |p.relations| ==>
         p.relations[i] in rels && Links(p.relations[i], p.entities[i].key, p.entities[i + 1])
  }

  function Length(p: Path): nat {
    |p.relations|
  }

  ghost predicate Extends(p: Path, q: Path) {
    q.relations <= p.relations && q.entities <= p.entities
  }

  // ----- one expansion

  predicate Visited(p: Path, key: string) {
    exists i :: 0 <= i < |p.entities| && p.entities[i].key == key
  }

  function Append(p: Path, r: Relation, e: Entity): Path {
    Path(p.entities + [e], p.relations + [r])
  }

  function LastKey(p: Path): string {
    if p.entities == [] then "" else p.entities[|p.entities| - 1].key
  }

  /** What one relation adds to a path: one longer path, or nothing. */
  function Branch(p: Path, r: Relation): seq<Path> {
    if r.source.key == LastKey(p) then (if Visited(p, r.target.key) then [] else [Append(p, r, r.target)])
    else if r.target.key == LastKey(p) then (if Visited(p, r.source.key) then [] else [Append(p, r, r.source)])
    else []
  }

  function Branches(rels: seq<Relation>, p: Path): (bs: seq<Path>)
    ensures |bs| <= |rels|
    ensures forall b :: b in bs ==> Length(b) == Length(p) + 1
  {
    if rels == [] then [] else Branches(rels[..|rels| - 1], p) + Branch(p, rels[|rels| - 1])
  }

  lemma {:induction false} BranchesMember(rels: seq<Relation>, p: Path, b: Path)
    ensures b in Branches(rels, p) <==> exists r :: r in rels && b in Branch(p, r)
  {
    if rels != [] {
      var init, last := rels[..|rels| - 1], rels[|rels| - 1];
      BranchesMember(init, p, b);
      assert rels == init + [last];
    }
  }

  /** The branches of a simple path are exactly its simple one-step extensions. */
  lemma BranchesAreExtensions(rels: seq<Relation>, start: Entity, p: Path, b: Path)
    requires IsSimple(rels, start, p)
    ensures b in Branches(rels, p) <==> IsSimple(rels, start, b) && Length(b) == Length(p) + 1 && Extends(b, p)
  {
    BranchesMember(rels, p, b);
    if b in Branches(rels, p) {
      var r :| r in rels && b in Branch(p, r);
      BranchIsSimple(rels, start, p, r, b);
    } else if IsSimple(rels, start, b) && Length(b) == Length(p) + 1 && Extends(b, p) {
      ExtensionIsBranch(rels, start, p, b);
    }
  }

  lemma ExtensionIsBranch(rels: seq<Relation>, start: Entity, p: Path, b: Path)
    requires IsSimple(rels, start, p) && IsSimple(rels, start, b) && Length(b) == Length(p) + 1 && Extends(b, p)
    ensures b.relations[Length(p)] in rels && b in Branch(p, b.relations[Length(p)])
  {
    var n := Length(p);
    var r, e := b.relations[n], b.entities[n + 1];
    assert b.entities == p.entities + [e] && b.relations == p.relations + [r];
    assert Links(r, p.entities[n].key, e);
    assert !Visited(p, e.key) by {
      forall i | 0 <= i < |p.entities| ensures p.entities[i].key != e.key { assert b.entities[i] == p.entities[i]; }
    }
    assert Visited(p, p.entities[n].key);
  }

  lemma BranchIsSimple(rels: seq<Relation>, start: Entity, p: Path, r: Relation, b: Path)
    requires IsSimple(rels, start, p) && r in rels && b in Branch(p, r)
    ensures IsSimple(rels, start, b) && Length(b) == Length(p) + 1 && Extends(b, p)
  {
  }

  lemma BranchRelation(p: Path, r: Relation, b: Path)
    requires b in Branch(p, r)
    ensures b.relations == p.relations + [r] && b.relations[|p.relations|] == r && |b.entities| == |p.entities| + 1
  {
  }

  // ----- breadth-first enumeration

  ghost function Pow(b: nat, d: nat): (p: nat)
    ensures b >= 1 ==> p >= 1
  {
    if d == 0 then 1 else b * Pow(b, d - 1)
  }

  ghost predicate WithinHops(queue: seq<Path>, hops: nat) {
    forall p :: p in queue ==> Length(p) <= hops
  }

  /** Weighted queue size: a path that can still grow d times weighs (n + 1)^d. */
  ghost function QueueWeight(n: nat, hops: nat, queue: seq<Path>): nat
    requires WithinHops(queue, hops)
  {
    if queue == [] then 0 else Pow(n + 1, hops - Length(queue[0])) + QueueWeight(n, hops, queue[1..])
  }

  lemma {:induction false} WeightOfConcat(n: nat, hops: nat, a: seq<Path>, b: seq<Path>)
    requires WithinHops(a, hops) && WithinHops(b, hops) && WithinHops(a + b, hops)
    ensures QueueWeight(n, hops, a + b) == QueueWeight(n, hops, a) + QueueWeight(n, hops, b)
  {
    if a == [] {
      assert a + b == b;
    } else {
      assert (a + b)[1..] == a[1..] + b;
      WeightOfConcat(n, hops, a[1..], b);
    }
  }

  lemma {:induction false} WeightOfLevel(n: nat, hops: nat, level: seq<Path>, l: nat)
    requires l <= hops && forall p :: p in level ==> Length(p) == l
    ensures QueueWeight(n, hops, level) == |level| * Pow(n + 1, hops - l)
  {
    if level != [] {
      var w := Pow(n + 1, hops - l);
      WeightOfLevel(n, hops, level[1..], l);
      assert level[0] in level;
      OneMoreTime(|level|, w);
    }
  }

  lemma OneMoreTime(n: int, w: int)
    ensures w + (n - 1) * w == n * w
  {
  }

  function Children(rels: seq<Relation>, hops: nat, p: Path): seq<Path> {
    if Length(p) == hops then [] else Branches(rels, p)
  }

  lemma ExpansionShrinks(rels: seq<Relation>, hops: nat, queue: seq<Path>)
    requires queue != [] && WithinHops(queue, hops)
    ensures WithinHops(queue[1..] + Children(rels, hops, queue[0]), hops)
    ensures QueueWeight(|rels|, hops, queue[1..] + Children(rels, hops, queue[0])) < QueueWeight(|rels|, hops, queue)
  {
    var head, n := queue[0], |rels|;
    assert head in queue;
    var kids := Children(rels, hops, head);
    WeightOfConcat(n, hops, queue[1..], kids);
    if kids != [] {
      var d := hops - Length(head) - 1;
      WeightOfLevel(n, hops, kids, Length(head) + 1);
      BoundedProduct(|kids|, n, Pow(n + 1, d));
    }
  }

  lemma BoundedProduct(k: nat, n: nat, w: nat)
    requires k <= n && w >= 1
    ensures k * w < (n + 1) * w
  {
  }

  function Emitted(p: Path): seq<Path> {
    if p.relations == [] then [] else [p]
  }

  /** Everything the loop would append to `paths` if it were never cut off. */
  ghost function Enumeration(rels: seq<Relation>, hops: nat, queue: seq<Path>): seq<Path>
    requires WithinHops(queue, hops)
    decreases QueueWeight(|rels|, hops, queue)
  {
    if queue == [] then []
    else
      ExpansionShrinks(rels, hops, queue);
      Emitted(queue[0]) + Enumeration(rels, hops, queue[1..] + Children(rels, hops, queue[0]))
  }

  lemma EnumerationStep(rels: seq<Relation>, hops: nat, queue: seq<Path>, paths: seq<Path>)
    requires queue != [] && WithinHops(queue, hops)
    ensures var next := queue[1..] + Children(rels, hops, queue[0]);
      WithinHops(next, hops) && QueueWeight(|rels|, hops, next) < QueueWeight(|rels|, hops, queue)
      && paths + Enumeration(rels, hops, queue) == (paths + Emitted(queue[0])) + Enumeration(rels, hops, next)
  {
    ExpansionShrinks(rels, hops, queue);
  }

  // ----- what the enumeration contains

  ghost predicate AllSimple(rels: seq<Relation>, start: Entity, queue: seq<Path>) {
    forall p :: p in queue ==> IsSimple(rels, start, p)
  }

  lemma ExpansionSimple(rels: seq<Relation>, start: Entity, hops: nat, queue: seq<Path>)
    requires queue != [] && AllSimple(rels, start, queue)
    ensures AllSimple(rels, start, queue[1..] + Children(rels, hops, queue[0]))
  {
    assert queue[0] in queue;
    forall p | p in Children(rels, hops, queue[0]) ensures IsSimple(rels, start, p) {
      BranchesAreExtensions(rels, start, queue[0], p);
    }
  }

  ghost predicate ExtendsSome(queue: seq<Path>, p: Path) {
    exists q :: q in queue && Extends(p, q)
  }

  /** Soundness: only simple paths within the hop limit, each growing out of a queued one. */
  lemma {:induction false} EnumerationSound(rels: seq<Relation>, start: Entity, hops: nat, queue: seq<Path>)
    requires WithinHops(queue, hops) && AllSimple(rels, start, queue)
    ensures forall p :: p in Enumeration(rels, hops, queue) ==>
              IsSimple(rels, start, p) && 1 <= Length(p) <= hops && ExtendsSome(queue, p)
    decreases QueueWeight(|rels|, hops, queue)
  {
    if queue != [] {
      var head, next := queue[0], queue[1..] + Children(rels, hops, queue[0]);
      assert head in queue;
      ExpansionShrinks(rels, hops, queue);
      ExpansionSimple(rels, start, hops, queue);
      EnumerationSound(rels, start, hops, next);
      forall p | p in Enumeration(rels, hops, queue)
        ensures IsSimple(rels, start, p) && 1 <= Length(p) <= hops && ExtendsSome(queue, p)
      {
        if p in Emitted(head) {
          assert Extends(p, head);
        } else {
          assert p in Enumeration(rels, hops, next);
          var q :| q in next && Extends(p, q);
          if q in queue[1..] {
            assert q in queue;
          } else {
            BranchesAreExtensions(rels, start, head, q);
            assert Extends(p, head);
          }
        }
      }
    }
  }

  function Prefix(p: Path, l: nat): Path
    requires l < |p.entities| && l <= |p.relations|
  {
    Path(p.entities[..l + 1], p.relations[..l])
  }

  /** The next step of a simple path beyond `head` is one of the branches of `head`. */
  lemma PrefixIsBranch(rels: seq<Relation>, start: Entity, head: Path, p: Path)
    requires IsSimple(rels, start, head) && IsSimple(rels, start, p) && Extends(p, head) && Length(head) < Length(p)
    ensures var step := Prefix(p, Length(head) + 1);
      Extends(p, step) && step in Branches(rels, head)
  {
    var step := Prefix(p, Length(head) + 1);
    assert IsSimple(rels, start, step) && Extends(step, head);
    BranchesAreExtensions(rels, start, head, step);
  }

  /** Completeness: every simple extension of a queued path within the hop limit is enumerated. */
  lemma {:induction false} EnumerationComplete(rels: seq<Relation>, start: Entity, hops: nat, queue: seq<Path>, q: Path,
      p: Path)
    requires WithinHops(queue, hops) && AllSimple(rels, start, queue) && q in queue
    requires IsSimple(rels, start, p) && 1 <= Length(p) <= hops && Extends(p, q)
    ensures p in Enumeration(rels, hops, queue)
    decreases QueueWeight(|rels|, hops, queue)
  {
    var head, next := queue[0], queue[1..] + Children(rels, hops, queue[0]);
    ExpansionShrinks(rels, hops, queue);
    ExpansionSimple(rels, start, hops, queue);
    if q != head {
      assert q in queue[1..] && q in next;
      EnumerationComplete(rels, start, hops, next, q, p);
    } else if Length(p) == Length(head) {
      assert p.relations == head.relations && p.entities == head.entities;
    } else {
      var step := Prefix(p, Length(head) + 1);
      assert head in queue;
      PrefixIsBranch(rels, start, head, p);
      assert step in next;
      EnumerationComplete(rels, start, hops, next, step, p);
    }
  }

  // ----- order

  predicate RelationLess(a: Relation, b: Relation) {
    StringLess(RelationKey(a), RelationKey(b))
  }

  function Keys(relations: seq<Relation>): (r: seq<string>)
    ensures |r| == |relations|
  {
    if relations == [] then []
    else Keys(relations[..|relations| - 1]) + [RelationKey(relations[|relations| - 1])]
  }

  /** Shorter first, and among equals by the keys of the relations. */
  predicate PathLess(a: Path, b: Path) {
    Length(a) < Length(b) || (Length(a) == Length(b) && IdsLess(Keys(a.relations), Keys(b.relations)))
  }

  ghost predicate InOrder(ps: seq<Path>) {
    forall i, j :: 0 <= i < j < |ps| ==> PathLess(ps[i], ps[j])
  }

  ghost predicate ByLength(ps: seq<Path>) {
    forall i, j :: 0 <= i < j < |ps| ==> Length(ps[i]) <= Length(ps[j])
  }

  /** What is in order is without repetition, shortest first. */
  lemma InOrderIsDistinct(ps: seq<Path>)
    requires InOrder(ps)
    ensures Distinct(ps) && ByLength(ps)
  {
    forall i, j | 0 <= i < j < |ps| ensures ps[i] != ps[j] {
      StringLessTotal();
      LexIrreflexive(StringLess, Keys(ps[i].relations));
    }
  }

  lemma PathLessTransitive(a: Path, b: Path, c: Path)
    requires PathLess(a, b) && PathLess(b, c)
    ensures PathLess(a, c)
  {
    StringLessTotal();
    if Length(a) == Length(c) { LexTransitive(StringLess, Keys(a.relations), Keys(b.relations), Keys(c.relations)); }
  }

  ghost predicate StrictlySorted(rels: seq<Relation>) {
    forall i, j :: 0 <= i < j < |rels| ==> RelationLess(rels[i], rels[j])
  }

  /** Two ways to go on from one path: the smaller relation comes first. */
  lemma BranchesCompare(p: Path, r: Relation, a: Path, q: Relation, b: Path)
    requires a in Branch(p, r) && b in Branch(p, q) && RelationLess(r, q)
    ensures PathLess(a, b)
  {
    BranchRelation(p, r, a);
    BranchRelation(p, q, b);
    assert a.relations[..|p.relations|] == p.relations == b.relations[..|p.relations|];
    StringLessTotal();
    LexAfter(StringLess, Keys(p.relations), RelationKey(r), RelationKey(q));
  }

  lemma {:induction false} BranchesInOrder(rels: seq<Relation>, p: Path)
    requires StrictlySorted(rels)
    ensures InOrder(Branches(rels, p))
  {
    if rels != [] {
      var init, last := rels[..|rels| - 1], rels[|rels| - 1];
      BranchesInOrder(init, p);
      forall a, b | a in Branches(init, p) && b in Branch(p, last) ensures PathLess(a, b) {
        BranchesMember(init, p, a);
        var r :| r in init && a in Branch(p, r);
        BranchesCompare(p, r, a, last, b);
      }
      InOrderConcat(Branches(init, p), Branch(p, last));
    }
  }

  lemma InOrderConcat(a: seq<Path>, b: seq<Path>)
    requires InOrder(a) && InOrder(b) && forall x, y :: x in a && y in b ==> PathLess(x, y)
    ensures InOrder(a + b)
  {
    forall i, j | 0 <= i < j < |a + b| ensures PathLess((a + b)[i], (a + b)[j]) {
      if i < |a| <= j { assert a[i] in a && b[j - |a|] in b; }
    }
  }

  /** The keys of the path that a longer one was grown from. */
  function ParentKeys(p: Path): seq<string> {
    if p.relations == [] then [] else Keys(p.relations[..|p.relations| - 1])
  }

  /** A queue in order, on two levels, in which whatever grew already grew from a smaller path. */
  ghost predicate Lined(queue: seq<Path>) {
    && InOrder(queue)
    && (forall p :: p in queue ==> Length(queue[0]) <= Length(p) <= Length(queue[0]) + 1)
    && (forall p, q :: p in queue && q in queue && Length(q) == Length(p) + 1 ==>
      IdsLess(ParentKeys(q), Keys(p.relations)))
  }

  lemma ChildOf(rels: seq<Relation>, hops: nat, p: Path, c: Path)
    requires c in Children(rels, hops, p)
    ensures Length(c) == Length(p) + 1 && ParentKeys(c) == Keys(p.relations)
  {
    BranchesMember(rels, p, c);
    var r :| r in rels && c in Branch(p, r);
    BranchRelation(p, r, c);
    assert c.relations[..|p.relations|] == p.relations;
  }

  /** A path that grew from a smaller one is smaller. */
  lemma GrownFromSmaller(q: Path, c: Path)
    requires Length(q) == Length(c) > 0 && IdsLess(ParentKeys(q), ParentKeys(c))
    ensures PathLess(q, c)
  {
    StringLessTotal();
    var n := Length(q) - 1;
    var a, b := ParentKeys(q), ParentKeys(c);
    if a <= b {
      assert a == b;
      LexIrreflexive(StringLess, a);
    } else {
      LexAppend(StringLess, a, b, [RelationKey(q.relations[n])], [RelationKey(c.relations[n])]);
    }
  }

  lemma ExpansionInOrder(rels: seq<Relation>, hops: nat, queue: seq<Path>)
    requires queue != [] && Lined(queue) && StrictlySorted(rels)
    ensures InOrder(queue[1..] + Children(rels, hops, queue[0]))
    ensures forall q :: q in queue[1..] + Children(rels, hops, queue[0]) ==> PathLess(queue[0], q)
  {
    var head, kids := queue[0], Children(rels, hops, queue[0]);
    BranchesInOrder(rels, head);
    forall q, c | q in queue[1..] && c in kids ensures PathLess(q, c) {
      ChildOf(rels, hops, head, c);
      assert q in queue && head in queue;
      if Length(q) == Length(c) { GrownFromSmaller(q, c); }
    }
    InOrderConcat(queue[1..], kids);
    forall q | q in queue[1..] + kids ensures PathLess(head, q) {
      if q in kids {
        ChildOf(rels, hops, head, q);
      } else {
        var i :| 0 <= i < |queue[1..]| && queue[1..][i] == q;
        assert queue[i + 1] == q;
      }
    }
  }

  lemma ExpansionLined(rels: seq<Relation>, hops: nat, queue: seq<Path>)
    requires queue != [] && Lined(queue) && StrictlySorted(rels)
    ensures Lined(queue[1..] + Children(rels, hops, queue[0]))
  {
    var head, kids := queue[0], Children(rels, hops, queue[0]);
    var next := queue[1..] + kids;
    ExpansionInOrder(rels, hops, queue);
    assert head in queue;
    forall p | p in next ensures (p in queue || p in kids) && Length(head) <= Length(p) <= Length(head) + 1 {
      if p in kids { ChildOf(rels, hops, head, p); }
    }
    if next != [] {
      assert next[0] in next;
      forall p | p in next ensures Length(next[0]) <= Length(p) {
        var i :| 0 <= i < |next| && next[i] == p;
        if i > 0 { assert PathLess(next[0], next[i]); }
      }
    }
    forall p, q | p in next && q in next && Length(q) == Length(p) + 1
      ensures IdsLess(ParentKeys(q), Keys(p.relations))
    {
      if q in kids { ChildOf(rels, hops, head, q); }
    }
  }

  ghost predicate NotBelow(queue: seq<Path>, p: Path) {
    exists q :: q in queue && (q == p || PathLess(q, p))
  }

  lemma HeadComesFirst(head: Path, next: seq<Path>, rest: seq<Path>)
    requires InOrder(rest) && forall p :: p in rest ==> NotBelow(next, p)
    requires forall q :: q in next ==> PathLess(head, q)
    ensures InOrder(Emitted(head) + rest) && forall p :: p in rest ==> PathLess(head, p)
  {
    forall p | p in rest ensures PathLess(head, p) {
      var q :| q in next && (q == p || PathLess(q, p));
      if q != p { PathLessTransitive(head, q, p); }
    }
    InOrderConcat(Emitted(head), rest);
  }

  lemma HeadIsLeast(queue: seq<Path>, rest: seq<Path>)
    requires queue != [] && forall p :: p in rest ==> PathLess(queue[0], p)
    ensures forall p :: p in Emitted(queue[0]) + rest ==> NotBelow(queue, p)
  {
    assert queue[0] in queue;
  }

  /** Paths come out in order. */
  lemma {:induction false} EnumerationInOrder(rels: seq<Relation>, hops: nat, queue: seq<Path>)
    requires WithinHops(queue, hops) && Lined(queue) && StrictlySorted(rels)
    ensures InOrder(Enumeration(rels, hops, queue))
    ensures forall p :: p in Enumeration(rels, hops, queue) ==> NotBelow(queue, p)
    decreases QueueWeight(|rels|, hops, queue)
  {
    if queue != [] {
      var head, next := queue[0], queue[1..] + Children(rels, hops, queue[0]);
      ExpansionShrinks(rels, hops, queue);
      ExpansionInOrder(rels, hops, queue);
      ExpansionLined(rels, hops, queue);
      EnumerationInOrder(rels, hops, next);
      HeadComesFirst(head, next, Enumeration(rels, hops, next));
      HeadIsLeast(queue, Enumeration(rels, hops, next));
    }
  }

  // ----- the repository

  lemma RelationLessWeak()
    ensures StrictWeak(RelationLess)
  {
    StringLessTotal();
  }

  /** dict[key] = relation: replaces in place or appends. */
  function Put(rels: seq<Relation>, r: Relation): seq<Relation> {
    if rels == [] then [r]
    else if RelationKey(rels[0]) == RelationKey(r) then [r] + rels[1..]
    else [rels[0]] + Put(rels[1..], r)
  }

  ghost predicate UniqueKeys(rels: seq<Relation>) {
    forall i, j :: 0 <= i < j < |rels| ==> RelationKey(rels[i]) != RelationKey(rels[j])
  }

  lemma {:induction false} PutKeeps(rels: seq<Relation>, r: Relation)
    requires UniqueKeys(rels)
    ensures UniqueKeys(Put(rels, r))
    ensures forall x :: x in Put(rels, r) <==> x == r || (x in rels && RelationKey(x) != RelationKey(r))
  {
    if rels != [] {
      assert rels == [rels[0]] + rels[1..];
      assert forall x :: x in rels[1..] ==> RelationKey(x) != RelationKey(rels[0]);
      if RelationKey(rels[0]) != RelationKey(r) {
        PutKeeps(rels[1..], r);
      }
    }
  }

  /** Sorting by key keeps the relations and orders them strictly. */
  lemma SortedRelations(rels: seq<Relation>)
    requires UniqueKeys(rels)
    ensures forall r :: r in Sorted(RelationLess, rels) <==> r in rels
    ensures StrictlySorted(Sorted(RelationLess, rels))
  {
    RelationLessWeak();
    SortedIsSortedPermutation(RelationLess, rels);
    SortedMembers(RelationLess, rels);
    assert Distinct(rels);
    DistinctPermutation(rels, Sorted(RelationLess, rels));
    var s := Sorted(RelationLess, rels);
    forall i, j | 0 <= i < j < |s| ensures RelationLess(s[i], s[j]) {
      assert s[i] in rels && s[j] in rels && s[i] != s[j];
      StringLessTotal();
    }
  }

  lemma StrictlySortedIsDistinct(rels: seq<Relation>)
    requires StrictlySorted(rels)
    ensures Distinct(rels)
  {
    StringLessTotal();
  }

  function StartPath(e: Entity): Path {
    Path([e], [])
  }

  ghost function AllPaths(rels: seq<Relation>, start: Entity, hops: nat): seq<Path> {
    Enumeration(Sorted(RelationLess, rels), hops, [StartPath(start)])
  }

  /** The uncut enumeration lists every simple path of 1 to `hops` relations exactly once, shortest first and within
      one length in the order of the relation keys. */
  lemma AllPathsExact(rels: seq<Relation>, start: Entity, hops: nat)
    requires UniqueKeys(rels)
    ensures forall p :: p in AllPaths(rels, start, hops) <==> IsSimple(rels, start, p) && 1 <= Length(p) <= hops
    ensures InOrder(AllPaths(rels, start, hops))
    ensures Distinct(AllPaths(rels, start, hops)) && ByLength(AllPaths(rels, start, hops))
  {
    var s, queue := Sorted(RelationLess, rels), [StartPath(start)];
    SortedRelations(rels);
    assert AllSimple(s, start, queue) && WithinHops(queue, hops) && Lined(queue);
    EnumerationSound(s, start, hops, queue);
    EnumerationInOrder(s, hops, queue);
    InOrderIsDistinct(AllPaths(rels, start, hops));
    forall p | IsSimple(rels, start, p) && 1 <= Length(p) <= hops ensures p in AllPaths(rels, start, hops) {
      assert Extends(p, queue[0]) && queue[0] in queue;
      EnumerationComplete(s, start, hops, queue, queue[0], p);
    }
  }

  lemma StrictlySortedCompares(s: seq<Relation>, x: Relation, y: Relation)
    requires StrictlySorted(s) && x in s && y in s && x != y
    ensures RelationLess(x, y) || RelationLess(y, x)
  {
    var i :| 0 <= i < |s| && s[i] == x;
    var j :| 0 <= j < |s| && s[j] == y;
    assert i < j || j < i;
  }

  lemma SortedAlike(a: seq<Relation>, b: seq<Relation>)
    requires UniqueKeys(a) && multiset(a) == multiset(b)
    ensures Sorted(RelationLess, a) == Sorted(RelationLess, b)
  {
    RelationLessWeak();
    SortedIsSortedPermutation(RelationLess, a);
    SortedIsSortedPermutation(RelationLess, b);
    SortedRelations(a);
    var s := Sorted(RelationLess, a);
    forall x, y | x in s && y in s && x != y ensures RelationLess(x, y) || RelationLess(y, x) {
      StrictlySortedCompares(s, x, y);
    }
    SortedUnique(RelationLess, s, Sorted(RelationLess, b));
  }

  /** The enumeration does not depend on the order in which the relations were seeded. */
  lemma PathsIgnoreSeedingOrder(a: seq<Relation>, b: seq<Relation>, start: Entity, hops: nat)
    requires UniqueKeys(a) && multiset(a) == multiset(b)
    ensures AllPaths(a, start, hops) == AllPaths(b, start, hops)
  {
    SortedAlike(a, b);
  }

  /** Python's `s[:limit]`: a negative limit counts from the end. */
  function Slice<T>(s: seq<T>, limit: int): (r: seq<T>)
    ensures r <= s
    ensures limit >= 0 ==> |r| == if limit > |s| then |s| else limit
    ensures limit < 0 ==> |r| == if |s| + limit > 0 then |s| + limit else 0
  {
    if limit >= 0 then Take(s, limit) else if |s| + limit > 0 then s[..|s| + limit] else []
  }

  function Take<T>(s: seq<T>, n: nat): seq<T> {
    if |s| <= n then s else s[..n]
  }

  function WithEntities(m: map<string, Entity>, es: seq<Entity>): map<string, Entity> {
    if es == [] then m else var e := es[|es| - 1]; WithEntities(m, es[..|es| - 1])[e.key := e]
  }

  function WithEnds(m: map<string, Entity>, rels: seq<Relation>): map<string, Entity> {
    if rels == [] then m
    else var r := rels[|rels| - 1]; WithEnds(m, rels[..|rels| - 1])[r.source.key := r.source][r.target.key := r.target]
  }

  /** The relations with an end among the keys, in stored order. */
  function Touching(rels: seq<Relation>, keys: set<string>): seq<Relation> {
    if rels == [] then []
    else
      var r := rels[|rels| - 1];
      Touching(rels[..|rels| - 1], keys) + if r.source.key in keys || r.target.key in keys then [r] else []
  }

  lemma {:induction false} TouchingMembers(rels: seq<Relation>, keys: set<string>)
    requires UniqueKeys(rels)
    ensures UniqueKeys(Touching(rels, keys))
    ensures forall r :: r in Touching(rels, keys) <==> r in rels && (r.source.key in keys || r.target.key in keys)
  {
    if rels != [] {
      var init, last := rels[..|rels| - 1], rels[|rels| - 1];
      TouchingMembers(init, keys);
      assert rels == init + [last];
      assert forall x :: x in init ==> RelationKey(x) != RelationKey(last);
    }
  }

  /** The uncut answer of find_related: exactly the touching relations, once each, in key order. */
  lemma RelatedExact(rels: seq<Relation>, keys: set<string>)
    requires UniqueKeys(rels)
    ensures var all := Sorted(RelationLess, Touching(rels, keys));
      && (forall r :: r in all <==> r in rels && (r.source.key in keys || r.target.key in keys))
      && Distinct(all) && IsSorted(RelationLess, all)
  {
    TouchingMembers(rels, keys);
    SortedRelations(Touching(rels, keys));
    StrictlySortedIsDistinct(Sorted(RelationLess, Touching(rels, keys)));
    RelationLessWeak();
    SortedIsSortedPermutation(RelationLess, Touching(rels, keys));
  }

  class GraphRepository {
    var entities: map<string, Entity>
    var relations: seq<Relation>

    ghost predicate Valid()
      reads this
    {
      && UniqueKeys(relations)
      && (forall k :: k in entities ==> entities[k].key == k)
      && (forall r :: r in relations ==> r.source.key in entities && r.target.key in entities)
    }

    constructor ()
      ensures Valid() && entities == map[] && relations == []
    {
      entities, relations := map[], [];
    }

    /** Adds one relation and both its ends. */
    method UpsertRelation(r: Relation)
      requires Valid()
      modifies this
      ensures Valid()
      ensures entities == old(entities)[r.source.key := r.source][r.target.key := r.target]
      ensures relations == Put(old(relations), r)
    {
      PutKeeps(relations, r);
      entities := entities[r.source.key := r.source];
      entities := entities[r.target.key := r.target];
      relations := Put(relations, r);
    }

    method Seed(newEntities: seq<Entity>, newRelations: seq<Relation>)
      requires Valid()
      modifies this
      ensures Valid()
      ensures entities == WithEnds(WithEntities(old(entities), newEntities), newRelations)
      ensures relations == PutAll(old(relations), newRelations)
    {
      for i := 0 to |newEntities|
        invariant Valid() && relations == old(relations)
        invariant entities == WithEntities(old(entities), newEntities[..i])
      {
        entities := entities[newEntities[i].key := newEntities[i]];
        assert newEntities[..i + 1][..i] == newEntities[..i];
      }
      assert newEntities[..|newEntities|] == newEntities;
      for i := 0 to |newRelations|
        invariant Valid() && relations == PutAll(old(relations), newRelations[..i])
        invariant entities == WithEnds(WithEntities(old(entities), newEntities), newRelations[..i])
      {
        UpsertRelation(newRelations[i]);
        assert newRelations[..i + 1][..i] == newRelations[..i];
      }
      assert newRelations[..|newRelations|] == newRelations;
    }

    /** find_related: relations touching one of the keys, by relation key, cut off as Python slices. */
    method FindRelated(keys: set<string>, limit: int) returns (found: seq<Relation>)
      ensures found == Slice(Sorted(RelationLess, Touching(relations, keys)), limit)
    {
      var matches: seq<Relation> := [];
      for i := 0 to |relations|
        invariant matches == Touching(relations[..i], keys)
      {
        if relations[i].source.key in keys || relations[i].target.key in keys {
          matches := matches + [relations[i]];
        }
        assert relations[..i + 1][..i] == relations[..i];
      }
      assert relations[..|relations|] == relations;
      found := Slice(Sorted(RelationLess, matches), limit);
    }

    /** The loop over the sorted relations: queues every unvisited neighbour. */
    method ExpandInto(rels: seq<Relation>, queue: seq<Path>, p: Path) returns (grown: seq<Path>)
      ensures grown == queue + Branches(rels, p)
    {
      grown := queue;
      for k := 0 to |rels|
        invariant grown == queue + Branches(rels[..k], p)
      {
        var r := rels[k];
        assert rels[..k + 1][..k] == rels[..k];
        var next := r.target;
        var touches := true;
        if r.source.key == LastKey(p) {
          next := r.target;
        } else if r.target.key == LastKey(p) {
          next := r.source;
        } else {
          touches := false;
        }
        if touches && !Visited(p, next.key) {
          grown := grown + [Append(p, r, next)];
        }
      }
      assert rels[..|rels|] == rels;
    }

    /** The breadth-first loop, stopped as soon as `limit` paths are found. */
    method Enumerate(rels: seq<Relation>, start: Entity, maxHops: nat, limit: nat) returns (paths: seq<Path>)
      ensures paths == Take(Enumeration(rels, maxHops, [StartPath(start)]), limit)
    {
      paths := [];
      var queue := [StartPath(start)];
      ghost var all := Enumeration(rels, maxHops, queue);
      while queue != [] && |paths| < limit
        invariant WithinHops(queue, maxHops) && |paths| <= limit
        invariant paths + Enumeration(rels, maxHops, queue) == all
        decreases QueueWeight(|rels|, maxHops, queue)
      {
        var head := queue[0];
        EnumerationStep(rels, maxHops, queue, paths);
        queue := queue[1..];
        paths := paths + Emitted(head);
        if |head.relations| != maxHops {
          queue := ExpandInto(rels, queue, head);
        } else {
          assert queue == queue + Children(rels, maxHops, head);
        }
      }
      assert paths <= all;
      paths := Take(paths, limit);
    }

    method FindPaths(startKey: string, maxHops: int, limit: int) returns (r: PathsOutcome)
      ensures !(1 <= maxHops <= 3) ==> r == InvalidHops
      ensures 1 <= maxHops <= 3 && limit <= 0 ==> r == InvalidLimit
      ensures 1 <= maxHops <= 3 && limit > 0 && startKey !in entities ==> r == Paths([])
      ensures 1 <= maxHops <= 3 && limit > 0 && startKey in entities ==>
                r == Paths(Take(AllPaths(relations, entities[startKey], maxHops), limit))
    {
      if !(1 <= maxHops <= 3) {
        return InvalidHops;
      }
      if limit <= 0 {
        return InvalidLimit;
      }
      if startKey !in entities {
        return Paths([]);
      }
      var paths := Enumerate(Sorted(RelationLess, relations), entities[startKey], maxHops, limit);
      return Paths(paths);
    }
  }

  function PutAll(rels: seq<Relation>, more: seq<Relation>): seq<Relation> {
    if more == [] then rels else Put(PutAll(rels, more[..|more| - 1]), more[|more| - 1])
  }

  lemma SameAround(a: string, x: string, y: string, b: string)
    ensures a + x + b == a + y + b <==> x == y
  {
    if a + x + b == a + y + b {
      var whole := a + x + b;
      assert |x| == |y|;
      assert whole[|a|..|a| + |x|] == x && (a + y + b)[|a|..|a| + |y|] == y;
    }
  }

  /** Between the same ends, relations of different types have different keys. */
  lemma KeysTellTypes(q: Relation, r: Relation)
    requires q.source.key == r.source.key && q.target.key == r.target.key
    ensures RelationKey(q) == RelationKey(r) <==> q.relationType == r.relationType
  {
    SameAround(q.source.key + "|", q.relationType, r.relationType, "|" + q.target.key);
    KeyParts(q);
    KeyParts(r);
  }

  lemma KeyParts(r: Relation)
    ensures RelationKey(r) == (r.source.key + "|") + r.relationType + ("|" + r.target.key)
  {
  }

  /** Seeding leaves the last relation given for each key, and every stored one whose key was not given. */
  lemma {:induction false} PutAllKeeps(rels: seq<Relation>, more: seq<Relation>)
    requires UniqueKeys(rels)
    ensures UniqueKeys(PutAll(rels, more))
    ensures forall x :: x in PutAll(rels, more) <==>
              LastGiven(more, x) || (x in rels && !Mentions(more, RelationKey(x)))
  {
    if more != [] {
      var init, last := more[..|more| - 1], more[|more| - 1];
      PutAllKeeps(rels, init);
      PutKeeps(PutAll(rels, init), last);
      forall x
        ensures x in PutAll(rels, more) <==> LastGiven(more, x) || (x in rels && !Mentions(more, RelationKey(x)))
      {
        GivenEarlier(more, x);
      }
    }
  }

  ghost predicate Mentions(more: seq<Relation>, key: string) {
    exists i :: 0 <= i < |more| && RelationKey(more[i]) == key
  }

  /** `x` is given at position `i`, and nothing with its key is given after it. */
  ghost predicate LastGivenAt(more: seq<Relation>, x: Relation, i: int) {
    0 <= i < |more| && more[i] == x && forall j :: i < j < |more| ==> RelationKey(more[j]) != RelationKey(x)
  }

  ghost predicate LastGiven(more: seq<Relation>, x: Relation) {
    exists i :: LastGivenAt(more, x, i)
  }

  lemma GivenAtEarlier(more: seq<Relation>, x: Relation, i: int)
    requires more != [] && i != |more| - 1
    ensures LastGivenAt(more, x, i) <==>
              LastGivenAt(more[..|more| - 1], x, i) && RelationKey(more[|more| - 1]) != RelationKey(x)
  {
    var init := more[..|more| - 1];
    assert forall j :: 0 <= j < |init| ==> init[j] == more[j];
  }

  lemma MentionedEarlier(more: seq<Relation>, key: string)
    requires more != []
    ensures Mentions(more, key) <==> RelationKey(more[|more| - 1]) == key || Mentions(more[..|more| - 1], key)
  {
    var init := more[..|more| - 1];
    assert forall j :: 0 <= j < |init| ==> init[j] == more[j];
  }

  lemma GivenEarlier(more: seq<Relation>, x: Relation)
    requires more != []
    ensures var init, last := more[..|more| - 1], more[|more| - 1];
      && (LastGiven(more, x) <==> x == last || (LastGiven(init, x) && RelationKey(x) != RelationKey(last)))
      && (Mentions(more, RelationKey(x)) <==> RelationKey(x) == RelationKey(last) || Mentions(init, RelationKey(x)))
  {
    var n := |more| - 1;
    MentionedEarlier(more, RelationKey(x));
    assert LastGivenAt(more, x, n) <==> x == more[n];
    forall i | i != n
      ensures LastGivenAt(more, x, i) <==> LastGivenAt(more[..n], x, i) && RelationKey(more[n]) != RelationKey(x)
    {
      GivenAtEarlier(more, x, i);
    }
  }

  /** Both ends of every relation, in the order in which they are stored. */
  function EndsOf(rels: seq<Relation>): seq<Entity> {
    if rels == [] then []
    else var r := rels[|rels| - 1]; EndsOf(rels[..|rels| - 1]) + [r.source] + [r.target]
  }

  lemma OneMoreEntity(m: map<string, Entity>, es: seq<Entity>, e: Entity)
    ensures WithEntities(m, es + [e]) == WithEntities(m, es)[e.key := e]
  {
    assert (es + [e])[..|es|] == es;
  }

  lemma {:induction false} EndsAreEntities(m: map<string, Entity>, es: seq<Entity>, rels: seq<Relation>)
    ensures WithEnds(WithEntities(m, es), rels) == WithEntities(m, es + EndsOf(rels))
  {
    if rels == [] {
      assert es + [] == es;
    } else {
      var init, r := rels[..|rels| - 1], rels[|rels| - 1];
      EndsAreEntities(m, es, init);
      OneMoreEntity(m, es + EndsOf(init), r.source);
      OneMoreEntity(m, es + EndsOf(init) + [r.source], r.target);
      assert es + EndsOf(rels) == es + EndsOf(init) + [r.source] + [r.target];
    }
  }

  /** The entity given last under a key is the one stored. */
  lemma {:induction false} LastEntityWins(m: map<string, Entity>, es: seq<Entity>, i: nat)
    requires i < |es| && forall j :: i < j < |es| ==> es[j].key != es[i].key
    ensures es[i].key in WithEntities(m, es) && WithEntities(m, es)[es[i].key] == es[i]
  {
    var n := |es| - 1;
    if i < n {
      assert es[..n][i] == es[i];
      LastEntityWins(m, es[..n], i);
    }
  }

  /** A key under which nothing is given keeps what it had. */
  lemma {:induction false} OtherEntitiesStay(m: map<string, Entity>, es: seq<Entity>, k: string)
    requires forall i :: 0 <= i < |es| ==> es[i].key != k
    ensures (k in WithEntities(m, es) <==> k in m) && (k in m ==> WithEntities(m, es)[k] == m[k])
  {
    if es != [] {
      OtherEntitiesStay(m, es[..|es| - 1], k);
    }
  }

  /** Two relations of different types between the same ends are both kept when seeded. */
  lemma SeedKeepsBothTypes(rels: seq<Relation>, q: Relation, r: Relation)
    requires UniqueKeys(rels) && q.source.key == r.source.key && q.target.key == r.target.key
    requires q.relationType != r.relationType
    ensures q in PutAll(rels, [q, r]) && r in PutAll(rels, [q, r])
  {
    KeysTellTypes(q, r);
    PutAllKeeps(rels, [q, r]);
    assert LastGivenAt([q, r], q, 0) && LastGivenAt([q, r], r, 1);
  }

  /** The first paths of a list keep its order and precede the ones cut off. */
  lemma FirstComeFirst(all: seq<Path>, limit: nat)
    requires InOrder(all)
    ensures InOrder(Take(all, limit))
    ensures forall p, q :: p in Take(all, limit) && q in all && q !in Take(all, limit) ==> PathLess(p, q)
  {
    var answer := Take(all, limit);
    forall p, q | p in answer && q in all && q !in answer ensures PathLess(p, q) {
      var i :| 0 <= i < |answer| && answer[i] == p;
      var j :| 0 <= j < |all| && all[j] == q;
      assert all[i] == p;
    }
  }

  /** What a caller may rely on: simple paths within the hop limit, no repeats, shortest first. */
  lemma BoundedAnswerIsSound(rels: seq<Relation>, start: Entity, hops: nat, limit: nat)
    requires UniqueKeys(rels)
    ensures var answer := Take(AllPaths(rels, start, hops), limit);
      && |answer| <= limit && InOrder(answer) && Distinct(answer) && ByLength(answer)
      && forall p :: p in answer ==> IsSimple(rels, start, p) && 1 <= Length(p) <= hops
  {
    AllPathsExact(rels, start, hops);
    FirstComeFirst(AllPaths(rels, start, hops), limit);
    InOrderIsDistinct(Take(AllPaths(rels, start, hops), limit));
  }

  /** Nothing is missing when fewer than `limit` come back, and otherwise it comes behind all that came back. */
  lemma BoundedAnswerIsExact(rels: seq<Relation>, start: Entity, hops: nat, limit: nat, q: Path)
    requires UniqueKeys(rels) && IsSimple(rels, start, q) && 1 <= Length(q) <= hops
    requires q !in Take(AllPaths(rels, start, hops), limit)
    ensures var answer := Take(AllPaths(rels, start, hops), limit);
      |answer| == limit && forall p :: p in answer ==> PathLess(p, q)
  {
    AllPathsExact(rels, start, hops);
    FirstComeFirst(AllPaths(rels, start, hops), limit);
  }
}
