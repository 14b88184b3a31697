/** What the worker's discipline decides: for every promise of the lifecycle, the exact condition on the statuses the
    worker can reach under which all runs keep it. */
module LifecycleTheorems {
  import opened Options
  import opened Reachability
  import opened Lifecycle

  // ----- the conditions

  /** The worker's marks alone can carry a task from one status to the other. */
  ghost predicate Leads(d: Discipline, a: Status, b: Status) {
    Reaches(d.marks, a, b)
  }

  /** The marks still allowed while an audit is open. */
  ghost function During(d: Discipline): (Status, Status) -> bool {
    (a, b) => d.marks(a, b) && d.marksDuringAudit(a, b)
  }

  /** A task can be in status `v` with an audit open that started when there was no record yet. */
  ghost predicate OpenAt(d: Discipline, v: Status) {
    exists s :: Leads(d, Pending, s) && d.audits(s) && Reaches(During(d), s, v)
  }

  /** A task can be in status `v` after an audit in some earlier status. */
  ghost predicate AuditedAt(d: Discipline, v: Status) {
    exists s :: Leads(d, Pending, s) && d.audits(s) && Leads(d, s, v)
  }

  /** A decided task can come back to its reviewer. */
  ghost predicate Redecidable(d: Discipline) {
    Leads(d, Pending, ReviewRequired) && (Leads(d, Approved, ReviewRequired) || Leads(d, Rejected, ReviewRequired))
  }

  /** A decided task can be marked with another status. */
  ghost predicate Overwritable(d: Discipline) {
    Leads(d, Pending, ReviewRequired)
    && exists to :: (to != Approved && d.marks(Approved, to)) || (to != Rejected && d.marks(Rejected, to))
  }

  /** A published task can come back to its reviewer. */
  ghost predicate Recallable(d: Discipline) {
    || (Leads(d, Pending, ReviewRequired) && Leads(d, Approved, ReviewRequired))
    || (AuditedAt(d, Approved) && Leads(d, Approved, ReviewRequired))
    || (AuditedAt(d, Completed) && Leads(d, Completed, ReviewRequired))
  }

  /** A rejected task can be approved again, or be approved by a late audit and then marked as such. */
  ghost predicate Revivable(d: Discipline) {
    || (Leads(d, Pending, ReviewRequired) && Leads(d, Rejected, ReviewRequired))
    || (OpenAt(d, ReviewRequired) && (Leads(d, Rejected, Approved) || Leads(d, Rejected, Completed)))
  }

  /** An audit can still be open when the task gets published. */
  ghost predicate Outlasted(d: Discipline) {
    OpenAt(d, ReviewRequired) || OpenAt(d, Approved) || OpenAt(d, Completed)
  }

  // ----- the records of one task

  function Records(audits: seq<AuditRow>, t: string): seq<AuditRow> {
    if audits == [] then []
    else
      var last := audits[|audits| - 1];
      Records(audits[..|audits| - 1], t) + if last.task == t then [last] else []
  }

  lemma RecordsAfter(audits: seq<AuditRow>, row: AuditRow, t: string)
    ensures Records(audits + [row], t) == Records(audits, t) + if row.task == t then [row] else []
  {
    assert (audits + [row])[..|audits|] == audits;
  }

  lemma {:induction false} RecordsMember(audits: seq<AuditRow>, t: string, a: AuditRow)
    ensures a in Records(audits, t) <==> a in audits && a.task == t
  {
    if audits != [] {
      RecordsMember(audits[..|audits| - 1], t, a);
      assert audits == audits[..|audits| - 1] + [audits[|audits| - 1]];
    }
  }

  function Last(records: seq<AuditRow>): Option<AuditRow> {
    if records == [] then None else Some(records[|records| - 1])
  }

  lemma {:induction false} NewestIsLast(audits: seq<AuditRow>, t: string, id: nat)
    requires forall a :: a in audits && a.task == t ==> a.dispatchId == id
    ensures Newest(audits, t, id) == Last(Records(audits, t))
  {
    if audits != [] {
      assert audits[|audits| - 1] in audits;
      NewestIsLast(audits[..|audits| - 1], t, id);
    }
  }

  ghost predicate OneManual(records: seq<AuditRow>) {
    forall i, j :: 0 <= i < j < |records| ==> !(records[i].manual && records[j].manual)
  }

  lemma {:induction false} OneManualEach(audits: seq<AuditRow>)
    requires forall t :: OneManual(Records(audits, t))
    ensures forall i, j :: 0 <= i < j < |audits| && audits[i].manual && audits[j].manual ==>
            audits[i].task != audits[j].task
  {
    if audits != [] {
      var init, last := audits[..|audits| - 1], audits[|audits| - 1];
      forall t ensures OneManual(Records(init, t)) {
        var few, more := Records(init, t), Records(audits, t);
        assert OneManual(more);
        forall i, j | 0 <= i < j < |few| ensures !(few[i].manual && few[j].manual) {
          assert more[i] == few[i] && more[j] == few[j];
        }
      }
      OneManualEach(init);
      assert audits == init + [last];
      forall i | 0 <= i < |init| && init[i].manual && last.manual ensures init[i].task != last.task {
        if init[i].task == last.task { ManualTwice(init, last, init[i]); }
      }
    }
  }

  lemma ManualTwice(init: seq<AuditRow>, last: AuditRow, a: AuditRow)
    requires a in init && a.task == last.task && a.manual && last.manual
    ensures !OneManual(Records(init + [last], last.task))
  {
    RecordsAfter(init, last, last.task);
    RecordsMember(init, last.task, a);
    var few, more := Records(init, last.task), Records(init + [last], last.task);
    var k :| 0 <= k < |few| && few[k] == a;
    assert more[k] == a && more[|few|] == last;
  }

  // ----- one task of a world

  /** Everything about one task that bears on its safety. */
  datatype View = View(status: Status, row: Option<DispatchRow>, records: seq<AuditRow>, audited: bool, published: bool)

  const FRESH := View(Pending, None, [], false, false)

  ghost predicate IsPublished(s: Store, t: string) {
    exists p :: p in s.publications && p.task == t
  }

  ghost function ViewOf(w: World, t: string): View
    requires t in w.store.tasks
  {
    var s := w.store;
    View(s.tasks[t], if t in s.dispatches then Some(s.dispatches[t]) else None, Records(s.audits, t),
         BeingAudited(w, t), IsPublished(s, t))
  }

  predicate Known(s: Store, t: string, id: nat) {
    t in s.tasks && t in s.dispatches && s.dispatches[t].id == id
  }

  /** Dispatches belong to tasks; records, open audits and publications name a task and its own dispatch. */
  ghost predicate Consistent(w: World) {
    && (forall t :: t in w.store.dispatches ==> t in w.store.tasks)
    && (forall a :: a in w.store.audits ==> Known(w.store, a.task, a.dispatchId))
    && (forall c :: c in w.open ==> Known(w.store, w.open[c].task, w.open[c].dispatchId))
    && (forall p :: p in w.store.publications ==> Known(w.store, p.task, p.dispatchId))
  }

  // ----- what one action does to one task

  predicate Dispatches(v: View, v': View) {
    v.row.None? && v' == v.(row := v'.row)
  }

  predicate Marks(d: Discipline, v: View, v': View) {
    v' == v.(status := v'.status) && d.marks(v.status, v'.status)
    && (v.audited ==> d.marksDuringAudit(v.status, v'.status))
  }

  predicate Decides(v: View, v': View, m: AuditRow) {
    && v.status == ReviewRequired && v.row.Some? && m.manual && (m.result == Approved || m.result == Rejected)
    && v' == v.(status := m.result, row := Some(v.row.value.(status := m.result)), records := v.records + [m])
  }

  predicate Opens(d: Discipline, v: View, v': View) {
    v.records == [] && d.audits(v.status) && v' == v.(audited := true)
  }

  predicate Inserts(v: View, v': View, m: AuditRow) {
    v.audited && !m.manual && v' == v.(records := v.records + [m], audited := v'.audited)
  }

  predicate Closes(v: View, v': View) {
    v.audited && v' == v.(audited := v'.audited)
  }

  predicate Publishes(v: View, v': View) {
    && (v.status == Approved || v.status == Completed) && Last(v.records).Some?
      && Last(v.records).value.result == Approved
    && v' == v.(published := true)
  }

  ghost predicate Steps(d: Discipline, v: View, v': View) {
    || v' == v || Dispatches(v, v') || Marks(d, v, v') || Opens(d, v, v') || Closes(v, v') || Publishes(v, v')
    || (exists m :: Decides(v, v', m)) || (exists m :: Inserts(v, v', m))
  }

  lemma AuditedAfterOpening(w: World, c: nat, o: OpenAudit, t: string)
    requires c !in w.open
    ensures BeingAudited(w.(open := w.open[c := o]), t) <==> BeingAudited(w, t) || o.task == t
  {
    var w' := w.(open := w.open[c := o]);
    assert w'.open[c] == o;
    if BeingAudited(w, t) {
      var e :| e in w.open && w.open[e].task == t;
      assert e in w'.open && w'.open[e].task == t;
    }
  }

  lemma AuditedAfterClosing(w: World, c: nat, t: string)
    ensures BeingAudited(w.(open := w.open - {c}), t) ==> BeingAudited(w, t)
    ensures !(c in w.open && w.open[c].task == t) ==>
              (BeingAudited(w.(open := w.open - {c}), t) <==> BeingAudited(w, t))
  {
    var w' := w.(open := w.open - {c});
    if BeingAudited(w', t) {
      var e :| e in w'.open && w'.open[e].task == t;
      assert e in w.open;
    }
    if BeingAudited(w, t) && !(c in w.open && w.open[c].task == t) {
      var e :| e in w.open && w.open[e].task == t;
      assert e in w'.open && w'.open[e].task == t;
    }
  }

  lemma MarkSteps(d: Discipline, w: World, t: string, status: Status, u: string)
    requires u in w.store.tasks
    ensures var w' := Apply(d, w, Mark(t, status));
      u in w'.store.tasks && Steps(d, ViewOf(w, u), ViewOf(w', u))
  {
    var w' := Apply(d, w, Mark(t, status));
    assert BeingAudited(w', u) <==> BeingAudited(w, u);
  }

  lemma AuditReadSteps(d: Discipline, w: World, a: Action, u: string)
    requires Consistent(w) && a.AuditRead? && u in w.store.tasks
    ensures var w' := Apply(d, w, a);
      u in w'.store.tasks && Steps(d, ViewOf(w, u), ViewOf(w', u))
  {
    if a.c !in w.open && MayAudit(d, w.store, a.t) {
      AuditedAfterOpening(w, a.c, OpenAudit(a.t, w.store.dispatches[a.t].id, a.result, a.reason), u);
      NewestIsLast(w.store.audits, a.t, w.store.dispatches[a.t].id);
    }
  }

  lemma AuditInsertSteps(d: Discipline, w: World, c: nat, u: string)
    requires u in w.store.tasks
    ensures var w' := Apply(d, w, AuditInsert(c));
      u in w'.store.tasks && Steps(d, ViewOf(w, u), ViewOf(w', u))
  {
    if c in w.open {
      var o := w.open[c];
      var m := AuditRow(o.task, o.dispatchId, o.result, false, o.reason);
      RecordsAfter(w.store.audits, m, u);
      AuditedAfterClosing(w, c, u);
      var w' := Apply(d, w, AuditInsert(c));
      assert BeingAudited(w', u) <==> BeingAudited(w.(open := w.open - {c}), u);
      if o.task == u { assert Inserts(ViewOf(w, u), ViewOf(w', u), m); }
    }
  }

  /** What a stored decision changes. */
  ghost predicate StoresDecision(w: World, w': World, t: string, m: AuditRow) {
    && t in w.store.tasks && t in w.store.dispatches && m.task == t && w'.open == w.open
    && w'.store.tasks == w.store.tasks[t := m.result] && w'.store.publications == w.store.publications
    && w'.store.dispatches == w.store.dispatches[t := w.store.dispatches[t].(status := m.result)]
    && w'.store.audits == w.store.audits + [m]
  }

  lemma DecisionView(w: World, w': World, t: string, m: AuditRow, u: string)
    requires StoresDecision(w, w', t, m) && u in w.store.tasks && w.store.tasks[t] == ReviewRequired
    requires m.manual && (m.result == Approved || m.result == Rejected)
    ensures u in w'.store.tasks
    ensures if u == t then Decides(ViewOf(w, u), ViewOf(w', u), m) else ViewOf(w', u) == ViewOf(w, u)
  {
    RecordsAfter(w.store.audits, m, u);
    assert BeingAudited(w', u) <==> BeingAudited(w, u);
  }

  lemma DecidingSteps(d: Discipline, w: World, a: Action, u: string)
    requires a.Deciding? && u in w.store.tasks
    ensures var w' := Apply(d, w, a);
      u in w'.store.tasks && Steps(d, ViewOf(w, u), ViewOf(w', u))
  {
    var w' := Apply(d, w, a);
    if DecideResult(w.store, a.t, a.approve, a.stale).Decided? {
      var m := AuditRow(a.t, w.store.dispatches[a.t].id, if a.approve then Approved else Rejected, true, a.reason);
      assert StoresDecision(w, w', a.t, m);
      DecisionView(w, w', a.t, m, u);
    }
  }

  lemma PublishingSteps(d: Discipline, w: World, a: Action, u: string)
    requires Consistent(w) && a.Publishing? && u in w.store.tasks
    ensures var w' := Apply(d, w, a);
      u in w'.store.tasks && Steps(d, ViewOf(w, u), ViewOf(w', u))
  {
    var w' := Apply(d, w, a);
    assert BeingAudited(w', u) <==> BeingAudited(w, u);
    if PublishResult(w.store, a.t, a.ordered).NowPublished? {
      var p := PublishResult(w.store, a.t, a.ordered).publication;
      NewestIsLast(w.store.audits, a.t, w.store.dispatches[a.t].id);
      assert w'.store.publications == w.store.publications + [p];
      assert IsPublished(w'.store, u) <==> IsPublished(w.store, u) || a.t == u by {
        assert p in w'.store.publications;
        assert forall q :: q in w'.store.publications <==> q in w.store.publications || q == p;
      }
    }
  }

  /** Every action takes every task one step further, or leaves it alone. */
  lemma ApplySteps(d: Discipline, w: World, a: Action, u: string)
    requires Consistent(w) && u in w.store.tasks
    ensures u in Apply(d, w, a).store.tasks && Steps(d, ViewOf(w, u), ViewOf(Apply(d, w, a), u))
  {
    var w' := Apply(d, w, a);
    match a
    case Begin(t) => assert BeingAudited(w', u) <==> BeingAudited(w, u);
    case Dispatching(t, row) => assert BeingAudited(w', u) <==> BeingAudited(w, u);
    case AuditRead(c, t, result, reason) => AuditReadSteps(d, w, a, u);
    case AuditInsert(c) => AuditInsertSteps(d, w, c, u);
    case AuditDrop(c) => AuditedAfterClosing(w, c, u);
    case Mark(t, status) => MarkSteps(d, w, t, status, u);
    case Deciding(t, approve, stale, reason) => DecidingSteps(d, w, a, u);
    case Publishing(t, ordered) => PublishingSteps(d, w, a, u);
  }

  lemma ApplyIsConsistent(d: Discipline, w: World, a: Action)
    requires Consistent(w)
    ensures Consistent(Apply(d, w, a))
  {
  }

  /** A task an action creates has nothing to its name. */
  lemma CreatedIsFresh(d: Discipline, w: World, a: Action, u: string)
    requires Consistent(w) && u !in w.store.tasks && u in Apply(d, w, a).store.tasks
    ensures ViewOf(Apply(d, w, a), u) == FRESH
  {
    var w' := Apply(d, w, a);
    assert a == Begin(u);
    if Records(w'.store.audits, u) != [] {
      RecordsMember(w.store.audits, u, Records(w'.store.audits, u)[0]);
    }
  }

  lemma {:induction false} RunIsConsistent(d: Discipline, actions: seq<Action>)
    ensures Consistent(Run(d, actions))
  {
    if actions != [] {
      RunIsConsistent(d, actions[..|actions| - 1]);
      ApplyIsConsistent(d, Run(d, actions[..|actions| - 1]), actions[|actions| - 1]);
    }
  }

  /** What holds of a fresh task and survives every step holds of every task of every run. */
  lemma {:induction false} RunKeeps(d: Discipline, inv: View -> bool, actions: seq<Action>, u: string)
    requires inv(FRESH) && forall v, v' :: inv(v) && Steps(d, v, v') ==> inv(v')
    requires u in Run(d, actions).store.tasks
    ensures inv(ViewOf(Run(d, actions), u))
  {
    var init, a := actions[..|actions| - 1], actions[|actions| - 1];
    RunIsConsistent(d, init);
    if u in Run(d, init).store.tasks {
      RunKeeps(d, inv, init, u);
      ApplySteps(d, Run(d, init), a, u);
    } else {
      CreatedIsFresh(d, Run(d, init), a, u);
    }
  }

  // ----- what every step keeps, whatever the discipline

  ghost predicate Decided(v: View) {
    exists m :: m in v.records && m.manual
  }

  /** Where a task can be that was not decided yet, and from which decision it came otherwise. */
  ghost predicate StatusOk(d: Discipline, v: View) {
    if Decided(v)
    then Leads(d, Pending, ReviewRequired) && exists m :: m in v.records && m.manual && Leads(d, m.result, v.status)
    else Leads(d, Pending, v.status) && (v.records != [] ==> AuditedAt(d, v.status))
  }

  /** Where a task can be while an audit of it is open. */
  ghost predicate AuditOk(d: Discipline, v: View) {
    v.audited ==> OpenAt(d, if Decided(v) then ReviewRequired else v.status)
  }

  /** Only an audit that was open at the decision can put a record behind it. */
  ghost predicate LastOk(d: Discipline, v: View) {
    Decided(v) && !OpenAt(d, ReviewRequired) ==>
      Last(v.records).Some? && Last(v.records).value.manual && Leads(d, Last(v.records).value.result, v.status)
  }

  ghost predicate ResultsOk(v: View) {
    forall m :: m in v.records && m.manual ==> m.result == Approved || m.result == Rejected
  }

  ghost predicate General(d: Discipline, v: View) {
    StatusOk(d, v) && AuditOk(d, v) && LastOk(d, v) && ResultsOk(v)
  }

  lemma OpenIsAudited(d: Discipline, v: Status)
    requires OpenAt(d, v)
    ensures AuditedAt(d, v)
  {
    var s :| Leads(d, Pending, s) && d.audits(s) && Reaches(During(d), s, v);
    ReachesMore(During(d), d.marks, s, v);
  }

  lemma MarkKeepsReach(d: Discipline, a: Status, b: Status)
    requires d.marks(a, b)
    ensures forall s :: Leads(d, s, a) ==> Leads(d, s, b)
    ensures AuditedAt(d, a) ==> AuditedAt(d, b)
    ensures d.marksDuringAudit(a, b) && OpenAt(d, a) ==> OpenAt(d, b)
  {
    forall s | Leads(d, s, a) ensures Leads(d, s, b) { ReachesOn(d.marks, s, a, b); }
    if d.marksDuringAudit(a, b) && OpenAt(d, a) {
      var s :| Leads(d, Pending, s) && d.audits(s) && Reaches(During(d), s, a);
      ReachesOn(During(d), s, a, b);
    }
  }

  lemma MarksKeeps(d: Discipline, v: View, v': View)
    requires General(d, v) && Marks(d, v, v')
    ensures General(d, v')
  {
    MarkKeepsReach(d, v.status, v'.status);
    assert Decided(v') <==> Decided(v);
  }

  lemma DecidesKeeps(d: Discipline, v: View, v': View, m: AuditRow)
    requires General(d, v) && Decides(v, v', m)
    ensures General(d, v')
  {
    assert m in v'.records;
    ReachesItself(d.marks, m.result);
  }

  lemma OpensKeeps(d: Discipline, v: View, v': View)
    requires General(d, v) && Opens(d, v, v')
    ensures General(d, v')
  {
    ReachesItself(During(d), v.status);
  }

  lemma InsertsKeeps(d: Discipline, v: View, v': View, m: AuditRow)
    requires General(d, v) && Inserts(v, v', m)
    ensures General(d, v')
  {
    assert Decided(v') <==> Decided(v);
    if Decided(v) {
      var n :| n in v.records && n.manual && Leads(d, n.result, v.status);
      assert n in v'.records;
    } else {
      OpenIsAudited(d, v.status);
    }
  }

  lemma StepKeeps(d: Discipline, v: View, v': View)
    requires General(d, v) && Steps(d, v, v')
    ensures General(d, v')
  {
    if Marks(d, v, v') {
      MarksKeeps(d, v, v');
    } else if Opens(d, v, v') {
      OpensKeeps(d, v, v');
    } else if m :| Decides(v, v', m) {
      DecidesKeeps(d, v, v', m);
    } else if m :| Inserts(v, v', m) {
      InsertsKeeps(d, v, v', m);
    }
  }

  lemma FreshOk(d: Discipline)
    ensures General(d, FRESH)
  {
    ReachesItself(d.marks, Pending);
  }

  // ----- what the conditions keep

  /** Nobody decides twice unless a decided task can come back. */
  lemma StepKeepsOneManual(d: Discipline, v: View, v': View)
    requires !Redecidable(d) && General(d, v) && OneManual(v.records) && Steps(d, v, v')
    ensures OneManual(v'.records)
  {
    if m :| Decides(v, v', m) {
      assert !Decided(v);
      forall i | 0 <= i < |v.records| ensures !v.records[i].manual { assert v.records[i] in v.records; }
    }
  }

  /** A decision stays in the task and in its dispatch. */
  ghost predicate Standing(v: View) {
    forall m :: m in v.records && m.manual ==> m.result == v.status && v.row.Some? && v.row.value.status == m.result
  }

  lemma StepKeepsStanding(d: Discipline, v: View, v': View)
    requires !Overwritable(d) && General(d, v) && Standing(v) && Steps(d, v, v')
    ensures Standing(v')
  {
    if m :| Decides(v, v', m) {
      assert !Decided(v);
    }
  }

  /** A published task cannot come back. */
  ghost predicate Final(d: Discipline, v: View) {
    v.published ==> !Leads(d, v.status, ReviewRequired)
  }

  ghost predicate ApprovedForGood(d: Discipline, v: View) {
    v.published ==> !v.audited && Last(v.records).Some? && Last(v.records).value.result == Approved
  }

  lemma MarkKeepsFinal(d: Discipline, v: View, v': View)
    requires Final(d, v) && Marks(d, v, v')
    ensures Final(d, v')
  {
    ReachesOn(d.marks, ReviewRequired, v.status, v'.status);
  }

  /** A task at its reviewer's is not published. */
  lemma WaitingIsUnpublished(d: Discipline, v: View)
    requires Final(d, v) && v.status == ReviewRequired
    ensures !v.published
  {
    ReachesItself(d.marks, ReviewRequired);
  }

  lemma PublishIsFinal(d: Discipline, v: View, v': View, m: AuditRow)
    requires !Recallable(d) && General(d, v) && Publishes(v, v')
    requires Decided(v) ==> m in v.records && m.manual && m.result == Approved && Leads(d, m.result, v.status)
    ensures Final(d, v')
  {
    if Leads(d, v.status, ReviewRequired) && Decided(v) {
      ReachesThrough(d.marks, Approved, v.status, ReviewRequired);
    }
  }

  lemma StepKeepsApproved(d: Discipline, v: View, v': View)
    requires !Recallable(d) && !Outlasted(d) && General(d, v) && Steps(d, v, v')
    requires Final(d, v) && ApprovedForGood(d, v)
    ensures Final(d, v') && ApprovedForGood(d, v')
  {
    if Marks(d, v, v') {
      MarkKeepsFinal(d, v, v');
    } else if Publishes(v, v') {
      PublishIsFinal(d, v, v', Last(v.records).value);
    } else if m :| Decides(v, v', m) {
      WaitingIsUnpublished(d, v);
    }
  }

  ghost predicate NeverRejected(v: View) {
    v.published ==> forall m :: m in v.records && m.manual ==> m.result == Approved
  }

  lemma ManualIsUnique(v: View, m: AuditRow, n: AuditRow)
    requires OneManual(v.records) && m in v.records && n in v.records && m.manual && n.manual
    ensures m == n
  {
  }

  /** The one decision of a task that gets published is an approval. */
  lemma PublishedByApproval(d: Discipline, v: View, v': View) returns (m: AuditRow)
    requires !Revivable(d) && General(d, v) && OneManual(v.records) && Publishes(v, v') && Decided(v)
    ensures m in v.records && m.manual && m.result == Approved && Leads(d, m.result, v.status)
  {
    m :| m in v.records && m.manual && Leads(d, m.result, v.status);
    var last := Last(v.records).value;
    if last.manual { ManualIsUnique(v, m, last); }
  }

  lemma StepKeepsNeverRejected(d: Discipline, v: View, v': View)
    requires !Recallable(d) && !Revivable(d) && General(d, v) && Steps(d, v, v')
    requires OneManual(v.records) && Final(d, v) && NeverRejected(v)
    ensures Final(d, v') && NeverRejected(v')
  {
    if Marks(d, v, v') {
      MarkKeepsFinal(d, v, v');
    } else if Publishes(v, v') {
      var m := Last(v.records).value;
      if Decided(v) { m := PublishedByApproval(d, v, v'); }
      PublishIsFinal(d, v, v', m);
      forall n | n in v.records && n.manual ensures n.result == Approved { ManualIsUnique(v, m, n); }
    } else if m :| Decides(v, v', m) {
      WaitingIsUnpublished(d, v);
    }
  }

  // ----- every run

  lemma {:induction false} PublishedAtMostOnce(d: Discipline, actions: seq<Action>)
    ensures OnePublication(Run(d, actions).store)
  {
    if actions != [] {
      PublishedAtMostOnce(d, actions[..|actions| - 1]);
    }
  }

  lemma RunDecidesOnce(d: Discipline, actions: seq<Action>)
    requires !Redecidable(d)
    ensures OneDecision(Run(d, actions).store)
  {
    var w, inv := Run(d, actions), v => General(d, v) && OneManual(v.records);
    FreshOk(d);
    forall v, v' | inv(v) && Steps(d, v, v') ensures inv(v') {
      StepKeeps(d, v, v');
      StepKeepsOneManual(d, v, v');
    }
    RunIsConsistent(d, actions);
    forall t ensures OneManual(Records(w.store.audits, t)) {
      if t in w.store.tasks {
        RunKeeps(d, inv, actions, t);
      } else if Records(w.store.audits, t) != [] {
        RecordsMember(w.store.audits, t, Records(w.store.audits, t)[0]);
      }
    }
    OneManualEach(w.store.audits);
  }

  lemma RunDecisionsStand(d: Discipline, actions: seq<Action>)
    requires !Overwritable(d)
    ensures DecisionStands(Run(d, actions).store)
  {
    var w, inv := Run(d, actions), v => General(d, v) && Standing(v);
    FreshOk(d);
    forall v, v' | inv(v) && Steps(d, v, v') ensures inv(v') {
      StepKeeps(d, v, v');
      StepKeepsStanding(d, v, v');
    }
    RunIsConsistent(d, actions);
    forall a | a in w.store.audits && a.manual
      ensures Known(w.store, a.task, a.dispatchId)
      ensures w.store.tasks[a.task] == a.result == w.store.dispatches[a.task].status
    {
      RunKeeps(d, inv, actions, a.task);
      RecordsMember(w.store.audits, a.task, a);
    }
  }

  lemma RunStaysApproved(d: Discipline, actions: seq<Action>)
    requires !Recallable(d) && !Outlasted(d)
    ensures PublishedIsApproved(Run(d, actions).store)
  {
    var w, inv := Run(d, actions), v => General(d, v) && Final(d, v) && ApprovedForGood(d, v);
    FreshOk(d);
    forall v, v' | inv(v) && Steps(d, v, v') ensures inv(v') {
      StepKeeps(d, v, v');
      StepKeepsApproved(d, v, v');
    }
    RunIsConsistent(d, actions);
    forall p | p in w.store.publications
      ensures var newest := Newest(w.store.audits, p.task, p.dispatchId);
        newest.Some? && newest.value.result == Approved
    {
      RunKeeps(d, inv, actions, p.task);
      NewestIsLast(w.store.audits, p.task, p.dispatchId);
    }
  }

  lemma RunKeepsRejectedBack(d: Discipline, actions: seq<Action>)
    requires !Recallable(d) && !Revivable(d)
    ensures RejectedIsUnpublished(Run(d, actions).store)
  {
    var w, inv := Run(d, actions), v => General(d, v) && OneManual(v.records) && Final(d, v) && NeverRejected(v);
    FreshOk(d);
    forall v, v' | inv(v) && Steps(d, v, v') ensures inv(v') {
      StepKeeps(d, v, v');
      StepKeepsOneManual(d, v, v');
      StepKeepsNeverRejected(d, v, v');
    }
    RunIsConsistent(d, actions);
    forall a, p | a in w.store.audits && p in w.store.publications && a.manual && a.result == Rejected
      ensures p.task != a.task
    {
      RunKeeps(d, inv, actions, a.task);
      RecordsMember(w.store.audits, a.task, a);
    }
  }

  // ----- runs that break a promise

  lemma RunStep(d: Discipline, p: seq<Action>, a: Action)
    ensures Run(d, p + [a]) == Apply(d, Run(d, p), a)
  {
  }

  /** The world with the status of its one task replaced. */
  function Moved(w: World, t: string, status: Status): World {
    w.(store := w.store.(tasks := map[t := status]))
  }

  /** The relation holds only marks that the worker may make in this world. */
  ghost predicate Allowed(d: Discipline, w: World, t: string, r: (Status, Status) -> bool) {
    forall a, b :: r(a, b) ==> d.marks(a, b) && (BeingAudited(w, t) ==> d.marksDuringAudit(a, b))
  }

  lemma {:induction false} GoesAlong(d: Discipline, p: seq<Action>, t: string, r: (Status, Status) -> bool,
      path: seq<Status>)
    returns (q: seq<Action>)
    requires IsPath(r, path) && Run(d, p).store.tasks == map[t := path[0]] && Allowed(d, Run(d, p), t, r)
    ensures Run(d, q) == Moved(Run(d, p), t, path[|path| - 1])
  {
    var n := |path| - 1;
    if n == 0 {
      q := p;
    } else {
      q := GoesAlong(d, p, t, r, path[..n]);
      assert r(path[n - 1], path[n]);
      assert BeingAudited(Run(d, q), t) <==> BeingAudited(Run(d, p), t);
      RunStep(d, q, Mark(t, path[n]));
      assert map[t := path[n - 1]][t := path[n]] == map[t := path[n]];
      q := q + [Mark(t, path[n])];
    }
  }

  /** The worker carries the task wherever its marks lead. */
  lemma Goes(d: Discipline, p: seq<Action>, t: string, r: (Status, Status) -> bool, a: Status, b: Status)
    returns (q: seq<Action>)
    requires Reaches(r, a, b) && Run(d, p).store.tasks == map[t := a] && Allowed(d, Run(d, p), t, r)
    ensures Run(d, q) == Moved(Run(d, p), t, b)
  {
    var path :| IsPath(r, path) && path[0] == a && path[|path| - 1] == b;
    q := GoesAlong(d, p, t, r, path);
  }

  /** A dispatched task in status `a`, without records. */
  lemma Arrives(d: Discipline, t: string, row: DispatchRow, a: Status) returns (p: seq<Action>)
    requires Leads(d, Pending, a)
    ensures Run(d, p) == World(Store(map[t := a], map[t := row], [], []), map[])
  {
    RunStep(d, [], Begin(t));
    p := [] + [Begin(t)];
    RunStep(d, p, Dispatching(t, row));
    p := p + [Dispatching(t, row)];
    p := Goes(d, p, t, d.marks, Pending, a);
  }

  /** What a decision makes of a world with one task. */
  function AfterDecision(w: World, t: string, row: DispatchRow, status: Status): World {
    World(Store(map[t := status], map[t := row.(status := status)],
                w.store.audits + [AuditRow(t, row.id, status, true, "ok")], w.store.publications), w.open)
  }

  lemma IsDecided(d: Discipline, p: seq<Action>, t: string, row: DispatchRow, approve: bool) returns (q: seq<Action>)
    requires Run(d, p).store.tasks == map[t := ReviewRequired] && Run(d, p).store.dispatches == map[t := row]
    ensures Run(d, q) == AfterDecision(Run(d, p), t, row, if approve then Approved else Rejected)
  {
    RunStep(d, p, Deciding(t, approve, false, "ok"));
    q := p + [Deciding(t, approve, false, "ok")];
  }

  /** A task with an approved newest record and a route, in a status to publish. */
  lemma IsPublishedNow(d: Discipline, p: seq<Action>, t: string, row: DispatchRow, v: Status) returns (q: seq<Action>)
    requires Run(d, p).store.tasks == map[t := v] && Run(d, p).store.dispatches == map[t := row]
    requires (v == Approved || v == Completed) && Run(d, p).store.publications == [] && RouteToPublish(row).Some?
    requires var newest := Last(Run(d, p).store.audits);
      newest.Some? && newest.value.task == t && newest.value.dispatchId == row.id && newest.value.result == Approved
    ensures var w := Run(d, p);
      Run(d, q) == w.(store := w.store.(publications := [Publication(t, row.id, RouteToPublish(row).value)]))
  {
    RunStep(d, p, Publishing(t, true));
    q := p + [Publishing(t, true)];
  }

  /** Two audits start on the task, of which the first one will approve and the second one reject. */
  lemma TwoAuditsOpen(d: Discipline, t: string, row: DispatchRow, a: Status) returns (p: seq<Action>)
    requires Leads(d, Pending, a) && d.audits(a)
    ensures Run(d, p) == World(Store(map[t := a], map[t := row], [], []),
                               map[1 := OpenAudit(t, row.id, Approved, ""), 2 := OpenAudit(t, row.id, Rejected, "")])
  {
    p := Arrives(d, t, row, a);
    RunStep(d, p, AuditRead(1, t, Approved, ""));
    p := p + [AuditRead(1, t, Approved, "")];
    RunStep(d, p, AuditRead(2, t, Rejected, ""));
    p := p + [AuditRead(2, t, Rejected, "")];
  }

  lemma Inserted(d: Discipline, p: seq<Action>, c: nat) returns (q: seq<Action>)
    requires c in Run(d, p).open
    ensures var w, o := Run(d, p), Run(d, p).open[c];
      var row := AuditRow(o.task, o.dispatchId, o.result, false, o.reason);
      Run(d, q) == World(w.store.(audits := w.store.audits + [row]), w.open - {c})
  {
    RunStep(d, p, AuditInsert(c));
    q := p + [AuditInsert(c)];
  }

  /** Decided, brought back and decided again. */
  lemma DecidedTwice(d: Discipline, t: string, row: DispatchRow, approve: bool) returns (p: seq<Action>)
    requires Leads(d, Pending, ReviewRequired) && Leads(d, if approve then Approved else Rejected, ReviewRequired)
    ensures !OneDecision(Run(d, p).store)
  {
    var status := if approve then Approved else Rejected;
    p := Arrives(d, t, row, ReviewRequired);
    p := IsDecided(d, p, t, row, approve);
    p := Goes(d, p, t, d.marks, status, ReviewRequired);
    p := IsDecided(d, p, t, row.(status := status), true);
    var audits := Run(d, p).store.audits;
    assert audits[0].manual && audits[1].manual && audits[0].task == audits[1].task;
  }

  /** Decided and marked with another status. */
  lemma Overwritten(d: Discipline, t: string, row: DispatchRow, approve: bool, to: Status) returns (p: seq<Action>)
    requires Leads(d, Pending, ReviewRequired)
    requires var status := if approve then Approved else Rejected; to != status && d.marks(status, to)
    ensures !DecisionStands(Run(d, p).store)
  {
    p := Arrives(d, t, row, ReviewRequired);
    p := IsDecided(d, p, t, row, approve);
    RunStep(d, p, Mark(t, to));
    p := p + [Mark(t, to)];
    var s := Run(d, p).store;
    assert s.audits[0] in s.audits && s.audits[0].manual && s.tasks[t] == to;
  }

  /** A published dispatch whose newest record is no approval. */
  lemma NewestIsNotApproved(s: Store, p: Publication)
    requires s.publications == [p] && Last(s.audits).Some? && Last(s.audits).value.result != Approved
    requires Last(s.audits).value.task == p.task && Last(s.audits).value.dispatchId == p.dispatchId
    ensures !PublishedIsApproved(s)
  {
    assert p in s.publications;
  }

  /** Published, brought back and rejected. */
  lemma RecalledFrom(d: Discipline, p: seq<Action>, t: string, row: DispatchRow, v: Status) returns (q: seq<Action>)
    requires Run(d, p).store.tasks == map[t := v] && Run(d, p).store.dispatches == map[t := row]
    requires Run(d, p).open == map[]
    requires |Run(d, p).store.publications| == 1 && Leads(d, v, ReviewRequired)
    requires Run(d, p).store.publications[0].task == t && Run(d, p).store.publications[0].dispatchId == row.id
    ensures !PublishedIsApproved(Run(d, q).store) && !RejectedIsUnpublished(Run(d, q).store)
  {
    q := Goes(d, p, t, d.marks, v, ReviewRequired);
    q := IsDecided(d, q, t, row, false);
    var s := Run(d, q).store;
    assert s.publications == [s.publications[0]];
    NewestIsNotApproved(s, s.publications[0]);
    assert Last(s.audits).value in s.audits;
  }

  lemma RecalledAfterApproval(d: Discipline, t: string, row: DispatchRow) returns (p: seq<Action>)
    requires Leads(d, Pending, ReviewRequired) && Leads(d, Approved, ReviewRequired) && RouteToPublish(row).Some?
    ensures !PublishedIsApproved(Run(d, p).store) && !RejectedIsUnpublished(Run(d, p).store)
  {
    p := Arrives(d, t, row, ReviewRequired);
    p := IsDecided(d, p, t, row, true);
    p := IsPublishedNow(d, p, t, row.(status := Approved), Approved);
    p := RecalledFrom(d, p, t, row.(status := Approved), Approved);
  }

  /** Both audits are over, and the first one has approved. */
  lemma AuditApproved(d: Discipline, t: string, row: DispatchRow, a: Status) returns (p: seq<Action>)
    requires Leads(d, Pending, a) && d.audits(a)
    ensures Run(d, p) == World(Store(map[t := a], map[t := row], [AuditRow(t, row.id, Approved, false, "")], []), map[])
  {
    p := TwoAuditsOpen(d, t, row, a);
    p := Inserted(d, p, 1);
    RunStep(d, p, AuditDrop(2));
    p := p + [AuditDrop(2)];
  }

  lemma RecalledAfterAudit(d: Discipline, t: string, row: DispatchRow, v: Status) returns (p: seq<Action>)
    requires (v == Approved || v == Completed) && AuditedAt(d, v) && Leads(d, v, ReviewRequired)
    requires RouteToPublish(row).Some?
    ensures !PublishedIsApproved(Run(d, p).store) && !RejectedIsUnpublished(Run(d, p).store)
  {
    var a :| Leads(d, Pending, a) && d.audits(a) && Leads(d, a, v);
    p := AuditApproved(d, t, row, a);
    p := Goes(d, p, t, d.marks, a, v);
    p := IsPublishedNow(d, p, t, row, v);
    p := RecalledFrom(d, p, t, row, v);
  }

  lemma Recalled(d: Discipline, t: string, row: DispatchRow) returns (p: seq<Action>)
    requires Recallable(d) && RouteToPublish(row).Some?
    ensures !PublishedIsApproved(Run(d, p).store) && !RejectedIsUnpublished(Run(d, p).store)
  {
    if Leads(d, Pending, ReviewRequired) && Leads(d, Approved, ReviewRequired) {
      p := RecalledAfterApproval(d, t, row);
    } else if AuditedAt(d, Approved) && Leads(d, Approved, ReviewRequired) {
      p := RecalledAfterAudit(d, t, row, Approved);
    } else {
      p := RecalledAfterAudit(d, t, row, Completed);
    }
  }

  /** Published with the rejecting audit still open, which then inserts its record. */
  lemma PublishedTooEarly(d: Discipline, p: seq<Action>, t: string, row: DispatchRow, v: Status)
    returns (q: seq<Action>)
    requires Run(d, p).store.tasks == map[t := v] && Run(d, p).store.dispatches == map[t := row]
    requires (v == Approved || v == Completed) && Run(d, p).store.publications == [] && RouteToPublish(row).Some?
    requires var newest := Last(Run(d, p).store.audits);
      newest.Some? && newest.value.task == t && newest.value.dispatchId == row.id && newest.value.result == Approved
    requires 2 in Run(d, p).open && Run(d, p).open[2] == OpenAudit(t, row.id, Rejected, "")
    ensures !PublishedIsApproved(Run(d, q).store)
  {
    q := IsPublishedNow(d, p, t, row, v);
    q := Inserted(d, q, 2);
    NewestIsNotApproved(Run(d, q).store, Publication(t, row.id, RouteToPublish(row).value));
  }

  lemma OutlastedAtReview(d: Discipline, t: string, row: DispatchRow) returns (p: seq<Action>)
    requires OpenAt(d, ReviewRequired) && RouteToPublish(row).Some?
    ensures !PublishedIsApproved(Run(d, p).store)
  {
    var a :| Leads(d, Pending, a) && d.audits(a) && Reaches(During(d), a, ReviewRequired);
    p := TwoAuditsOpen(d, t, row, a);
    p := Goes(d, p, t, During(d), a, ReviewRequired);
    p := IsDecided(d, p, t, row, true);
    p := PublishedTooEarly(d, p, t, row.(status := Approved), Approved);
  }

  lemma OutlastedAtPublication(d: Discipline, t: string, row: DispatchRow, v: Status) returns (p: seq<Action>)
    requires (v == Approved || v == Completed) && OpenAt(d, v) && RouteToPublish(row).Some?
    ensures !PublishedIsApproved(Run(d, p).store)
  {
    var a :| Leads(d, Pending, a) && d.audits(a) && Reaches(During(d), a, v);
    p := TwoAuditsOpen(d, t, row, a);
    p := Inserted(d, p, 1);
    p := Goes(d, p, t, During(d), a, v);
    p := PublishedTooEarly(d, p, t, row, v);
  }

  /** Rejected, brought back, approved and published. */
  lemma ApprovedAfterRejection(d: Discipline, t: string, row: DispatchRow) returns (p: seq<Action>)
    requires Leads(d, Pending, ReviewRequired) && Leads(d, Rejected, ReviewRequired) && RouteToPublish(row).Some?
    ensures !RejectedIsUnpublished(Run(d, p).store)
  {
    p := Arrives(d, t, row, ReviewRequired);
    p := IsDecided(d, p, t, row, false);
    p := Goes(d, p, t, d.marks, Rejected, ReviewRequired);
    p := IsDecided(d, p, t, row.(status := Rejected), true);
    p := IsPublishedNow(d, p, t, row.(status := Approved), Approved);
    var s := Run(d, p).store;
    assert s.audits[0] in s.audits && s.publications[0] in s.publications;
  }

  lemma RejectedThenAudited(d: Discipline, t: string, row: DispatchRow) returns (p: seq<Action>)
    requires OpenAt(d, ReviewRequired)
    ensures Run(d, p).open == map[] && Run(d, p).store.tasks == map[t := Rejected]
    ensures Run(d, p).store.dispatches == map[t := row.(status := Rejected)] && Run(d, p).store.publications == []
    ensures Run(d, p).store.audits
            == [AuditRow(t, row.id, Rejected, true, "ok"), AuditRow(t, row.id, Approved, false, "")]
  {
    var a :| Leads(d, Pending, a) && d.audits(a) && Reaches(During(d), a, ReviewRequired);
    p := TwoAuditsOpen(d, t, row, a);
    p := Goes(d, p, t, During(d), a, ReviewRequired);
    p := IsDecided(d, p, t, row, false);
    p := Inserted(d, p, 1);
    RunStep(d, p, AuditDrop(2));
    p := p + [AuditDrop(2)];
  }

  /** Rejected with an audit open, which then approves; marked as approved or completed and published. */
  lemma AuditedAfterRejection(d: Discipline, t: string, row: DispatchRow, v: Status) returns (p: seq<Action>)
    requires (v == Approved || v == Completed) && OpenAt(d, ReviewRequired) && Leads(d, Rejected, v)
    requires RouteToPublish(row).Some?
    ensures !RejectedIsUnpublished(Run(d, p).store)
  {
    p := RejectedThenAudited(d, t, row);
    p := Goes(d, p, t, d.marks, Rejected, v);
    p := IsPublishedNow(d, p, t, row.(status := Rejected), v);
    var s := Run(d, p).store;
    assert s.audits[0] in s.audits && s.publications[0] in s.publications;
  }

  // ----- the exact conditions

  const PROPOSAL := DispatchRow(1, ReviewRequired, Some("R1"), Some("R2"))

  /** In all runs a task is decided at most once, exactly when a decided task cannot come back to its reviewer. */
  lemma DecidedOnceExactly(d: Discipline)
    ensures (forall actions :: OneDecision(Run(d, actions).store)) <==> !Redecidable(d)
  {
    if Redecidable(d) {
      var p := DecidedTwice(d, "t", PROPOSAL, Leads(d, Approved, ReviewRequired));
    } else {
      forall actions ensures OneDecision(Run(d, actions).store) { RunDecidesOnce(d, actions); }
    }
  }

  /** In all runs a decision agrees with its task and dispatch, exactly when the worker marks no decided task anew. */
  lemma DecisionsStandExactly(d: Discipline)
    ensures (forall actions :: DecisionStands(Run(d, actions).store)) <==> !Overwritable(d)
  {
    if Overwritable(d) {
      var to :| (to != Approved && d.marks(Approved, to)) || (to != Rejected && d.marks(Rejected, to));
      var p := Overwritten(d, "t", PROPOSAL, to != Approved && d.marks(Approved, to), to);
    } else {
      forall actions ensures DecisionStands(Run(d, actions).store) { RunDecisionsStand(d, actions); }
    }
  }

  /** In all runs the newest audit record of a published dispatch is and stays APPROVED, exactly when a published task
      cannot come back to its reviewer and no audit outlasts the way to publication. */
  lemma StaysApprovedExactly(d: Discipline)
    ensures (forall actions :: PublishedIsApproved(Run(d, actions).store)) <==> !Recallable(d) && !Outlasted(d)
  {
    if Recallable(d) {
      var p := Recalled(d, "t", PROPOSAL);
    } else if OpenAt(d, ReviewRequired) {
      var p := OutlastedAtReview(d, "t", PROPOSAL);
    } else if Outlasted(d) {
      var p := OutlastedAtPublication(d, "t", PROPOSAL, if OpenAt(d, Approved) then Approved else Completed);
    } else {
      forall actions ensures PublishedIsApproved(Run(d, actions).store) { RunStaysApproved(d, actions); }
    }
  }

  /** In all runs a rejected task is never published, exactly when neither a published task can come back to its
      reviewer nor a rejected one be revived. */
  lemma RejectedStaysBackExactly(d: Discipline)
    ensures (forall actions :: RejectedIsUnpublished(Run(d, actions).store)) <==> !Recallable(d) && !Revivable(d)
  {
    if Recallable(d) {
      var p := Recalled(d, "t", PROPOSAL);
    } else if Leads(d, Pending, ReviewRequired) && Leads(d, Rejected, ReviewRequired) {
      var p := ApprovedAfterRejection(d, "t", PROPOSAL);
    } else if Revivable(d) {
      var p := AuditedAfterRejection(d, "t", PROPOSAL, if Leads(d, Rejected, Approved) then Approved else Completed);
    } else {
      forall actions ensures RejectedIsUnpublished(Run(d, actions).store) { RunKeepsRejectedBack(d, actions); }
    }
  }

  /** All four facts hold in all runs exactly when a decided or published task cannot come back to its reviewer and no
      audit outlasts the way to publication. */
  lemma SafeExactly(d: Discipline)
    ensures (forall actions :: Safe(Run(d, actions).store)) <==> !Redecidable(d) && !Recallable(d) && !Outlasted(d)
  {
    DecidedOnceExactly(d);
    StaysApprovedExactly(d);
    RejectedStaysBackExactly(d);
    forall actions ensures OnePublication(Run(d, actions).store) { PublishedAtMostOnce(d, actions); }
  }

  // ----- three workers

  ghost predicate Guarded(d: Discipline) {
    forall a, b :: d.marks(a, b) ==> a == Pending || a == Processing
  }

  lemma GuardedStays(d: Discipline, a: Status, b: Status)
    requires Guarded(d) && a != Pending && a != Processing
    ensures Leads(d, a, b) <==> a == b
  {
    ReachesItself(d.marks, a);
    if Leads(d, a, b) && a != b { ReachesByAnEdge(d.marks, a, b); }
  }

  /** A worker that marks a status only while the task is PENDING or PROCESSING: one decision, which stands, and
      nothing rejected is published, in every run. The newest record stays APPROVED unless an audit outlasts. */
  lemma GuardedRuns(d: Discipline, actions: seq<Action>)
    requires Guarded(d)
    ensures var s := Run(d, actions).store;
      OnePublication(s) && OneDecision(s) && DecisionStands(s) && RejectedIsUnpublished(s)
    ensures !Outlasted(d) ==> Safe(Run(d, actions).store)
  {
    GuardedStays(d, Approved, ReviewRequired);
    GuardedStays(d, Completed, ReviewRequired);
    GuardedStays(d, Rejected, ReviewRequired);
    GuardedStays(d, Rejected, Approved);
    GuardedStays(d, Rejected, Completed);
    PublishedAtMostOnce(d, actions);
    RunDecidesOnce(d, actions);
    RunDecisionsStand(d, actions);
    RunKeepsRejectedBack(d, actions);
    if !Outlasted(d) { RunStaysApproved(d, actions); }
  }

  /** Such a worker that also starts audits only then, and during an audit does not let go of the task. */
  lemma CarefulRuns(d: Discipline, actions: seq<Action>)
    requires Guarded(d) && forall a :: d.audits(a) ==> a == Pending || a == Processing
    requires forall a, b :: d.marksDuringAudit(a, b) ==> b != ReviewRequired && b != Approved && b != Completed
    ensures Safe(Run(d, actions).store)
  {
    forall v | OpenAt(d, v) ensures v != ReviewRequired && v != Approved && v != Completed {
      var s :| Leads(d, Pending, s) && d.audits(s) && Reaches(During(d), s, v);
      if s != v { ReachesByAnEdge(During(d), s, v); }
    }
    GuardedRuns(d, actions);
  }

  /** The code on its own refuses no mark: every promise but the single publication fails in some run. */
  lemma UnguardedRuns(d: Discipline)
    requires forall a, b :: d.marks(a, b)
    ensures exists actions :: !OneDecision(Run(d, actions).store)
    ensures exists actions :: !DecisionStands(Run(d, actions).store)
    ensures exists actions :: !PublishedIsApproved(Run(d, actions).store)
    ensures exists actions :: !RejectedIsUnpublished(Run(d, actions).store)
  {
    forall a, b ensures Leads(d, a, b) { assert IsPath(d.marks, [a, b]); }
    assert d.marks(Approved, Rejected);
    DecidedOnceExactly(d);
    DecisionsStandExactly(d);
    StaysApprovedExactly(d);
    RejectedStaysBackExactly(d);
  }
}
