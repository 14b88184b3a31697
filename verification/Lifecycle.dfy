/** The life of a task after dispatch: the automatic audit record, the worker's status marks,
    the reviewer's decision and publication, over rows shared by all of them. */
module Lifecycle {
  import opened Options

  datatype Status = Pending | Processing | Approved | Completed | Rejected | ReviewRequired | Other(name: string)

  datatype DispatchRow = DispatchRow(id: nat, status: Status, originalRoute: Option<string>,
      targetRoute: Option<string>)

  datatype AuditRow = AuditRow(task: string, dispatchId: nat, result: Status, manual: bool, reason: string)

  datatype Publication = Publication(task: string, dispatchId: nat, route: string)

  /** Tasks by id; the one dispatch of a task; audit records in insertion order; publications. */
  datatype Store = Store(
    tasks: map<string, Status>, dispatches: map<string, DispatchRow>, audits: seq<AuditRow>,
    publications: seq<Publication>)

  // ----- reading rows

  /** The newest audit record of a dispatch. */
  function Newest(audits: seq<AuditRow>, task: string, dispatchId: nat): Option<AuditRow> {
    if audits == [] then None
    else
      var last := audits[|audits| - 1];
      if last.task == task && last.dispatchId == dispatchId then Some(last)
      else Newest(audits[..|audits| - 1], task, dispatchId)
  }

  function FindPublication(ps: seq<Publication>, task: string): (r: Option<Publication>)
    ensures r.Some? ==> r.value in ps && r.value.task == task
    ensures r.None? ==> forall p :: p in ps ==> p.task != task
  {
    if ps == [] then None else if ps[0].task == task then Some(ps[0]) else FindPublication(ps[1..], task)
  }

  /** Python's `or` on optional text: an empty target route gives way to the original route, empty or not. */
  function RouteToPublish(d: DispatchRow): Option<string> {
    if Text(d.targetRoute).Some? then d.targetRoute else d.originalRoute
  }

  // ----- the services

  datatype PublishOutcome =
    | TaskNotFound | DispatchMissing | NotApproved | RouteMissing
    | NowPublished(publication: Publication)
    | WasPublished(publication: Publication)

  /** `ordered`: the order row of the task exists. */
  function PublishResult(s: Store, t: string, ordered: bool): PublishOutcome {
    if t !in s.tasks then TaskNotFound
    else if FindPublication(s.publications, t).Some? then WasPublished(FindPublication(s.publications, t).value)
    else if t !in s.dispatches then DispatchMissing
    else
      var d := s.dispatches[t];
      var audit := Newest(s.audits, t, d.id);
      if s.tasks[t] !in {Approved, Completed} || audit.None? || audit.value.result != Approved then NotApproved
      else if RouteToPublish(d).None? then RouteMissing
      else if !ordered then TaskNotFound
      else NowPublished(Publication(t, d.id, RouteToPublish(d).value))
  }

  function AfterPublish(s: Store, t: string, ordered: bool): Store {
    match PublishResult(s, t, ordered)
    case NowPublished(p) => s.(publications := s.publications + [p])
    case _ => s
  }

  datatype DecideOutcome =
    | ReasonTooLong | ReasonRequired
    | ReviewNotFound | AlreadyDecided | NothingToDecide | VersionConflict
    | Decided(status: Status)

  /** Python's `str.isspace` for one character. */
  predicate IsSpace(c: char) {
    var n := c as int;
    || 9 <= n <= 13 || 28 <= n <= 32 || n == 0x85 || n == 0xA0 || n == 0x1680 || 0x2000 <= n <= 0x200A
    || n == 0x2028 || n == 0x2029 || n == 0x202F || n == 0x205F || n == 0x3000
  }

  /** Python's `str.strip`. */
  function Stripped(text: string): (r: string)
    ensures r != [] ==> !IsSpace(r[0]) && !IsSpace(r[|r| - 1])
    decreases |text|
  {
    if text == [] then []
    else if IsSpace(text[0]) then Stripped(text[1..])
    else if IsSpace(text[|text| - 1]) then Stripped(text[..|text| - 1])
    else text
  }

  ghost predicate BlankOutside(text: string, i: nat, j: nat) {
    i <= j <= |text| && forall k :: 0 <= k < i || j <= k < |text| ==> IsSpace(text[k])
  }

  lemma SliceOfTail(text: string, i: nat, j: nat)
    requires i <= j < |text|
    ensures text[1..][i..j] == text[i + 1..j + 1]
    ensures IsSpace(text[0]) && BlankOutside(text[1..], i, j) ==> BlankOutside(text, i + 1, j + 1)
  {
    forall k | 1 <= k < |text| ensures text[k] == text[1..][k - 1] {}
  }

  lemma SliceOfInit(text: string, i: nat, j: nat)
    requires i <= j < |text|
    ensures text[..|text| - 1][i..j] == text[i..j]
    ensures IsSpace(text[|text| - 1]) && BlankOutside(text[..|text| - 1], i, j) ==> BlankOutside(text, i, j)
  {
    forall k | 0 <= k < |text| - 1 ensures text[k] == text[..|text| - 1][k] {}
  }

  /** Stripping takes white space off both ends and nothing else. */
  lemma {:induction false} StrippedSpan(text: string) returns (i: nat, j: nat)
    ensures BlankOutside(text, i, j) && Stripped(text) == text[i..j]
    decreases |text|
  {
    if text == [] || (!IsSpace(text[0]) && !IsSpace(text[|text| - 1])) {
      i, j := 0, |text|;
    } else if IsSpace(text[0]) {
      i, j := StrippedSpan(text[1..]);
      SliceOfTail(text, i, j);
      i, j := i + 1, j + 1;
    } else {
      i, j := StrippedSpan(text[..|text| - 1]);
      SliceOfInit(text, i, j);
    }
  }

  function Normalized(reason: Option<string>): string {
    if reason.None? then "" else Stripped(reason.value)
  }

  /** What `_reason` raises before anything is read: a rejection needs two characters, nothing may exceed 500. */
  function ReasonFault(approve: bool, reason: Option<string>): Option<DecideOutcome> {
    var length := |Normalized(reason)|;
    if length > 500 then Some(ReasonTooLong)
    else if !approve && length < 2 then Some(ReasonRequired)
    else None
  }

  const APPROVED_BY_HAND := "\U{4EBA}\U{5DE5}\U{590D}\U{6838}\U{5DF2}\U{6279}\U{51C6}\U{3002}"

  /** The reason stored with a decision. */
  function StoredReason(approve: bool, reason: Option<string>): string {
    if approve && Normalized(reason) == "" then APPROVED_BY_HAND else Normalized(reason)
  }

  /** `stale`: another transaction has changed the dispatch row, so the commit is rolled back. */
  function DecideResult(s: Store, t: string, approve: bool, stale: bool): DecideOutcome {
    if t !in s.tasks then ReviewNotFound
    else if s.tasks[t] != ReviewRequired then AlreadyDecided
    else if t !in s.dispatches then NothingToDecide
    else if stale then VersionConflict
    else Decided(if approve then Approved else Rejected)
  }

  function AfterDecide(s: Store, t: string, approve: bool, stale: bool, reason: string): Store {
    match DecideResult(s, t, approve, stale)
    case Decided(status) =>
      Store(s.tasks[t := status], s.dispatches[t := s.dispatches[t].(status := status)],
            s.audits + [AuditRow(t, s.dispatches[t].id, status, true, reason)], s.publications)
    case _ => s
  }

  function AfterMark(s: Store, t: string, status: Status): Store {
    if t in s.tasks then s.(tasks := s.tasks[t := status]) else s
  }

  // ----- the services on the fields of the rows

  predicate Unpublished(s: Store, t: string) {
    forall p :: p in s.publications ==> p.task != t
  }

  /** Position `i` holds the last record of the dispatch. */
  predicate LastRecord(audits: seq<AuditRow>, task: string, dispatchId: nat, i: int) {
    && 0 <= i < |audits| && audits[i].task == task && audits[i].dispatchId == dispatchId
    && forall j :: i < j < |audits| ==> !(audits[j].task == task && audits[j].dispatchId == dispatchId)
  }

  lemma {:induction false} NewestIsLastRecord(audits: seq<AuditRow>, task: string, dispatchId: nat)
    ensures var newest := Newest(audits, task, dispatchId);
      && (newest.Some? ==> exists i :: LastRecord(audits, task, dispatchId, i) && audits[i] == newest.value)
      && (forall i :: LastRecord(audits, task, dispatchId, i) ==> newest == Some(audits[i]))
  {
    if audits != [] {
      var n := |audits| - 1;
      NewestIsLastRecord(audits[..n], task, dispatchId);
      if audits[n].task == task && audits[n].dispatchId == dispatchId {
        assert LastRecord(audits, task, dispatchId, n);
      } else {
        forall i ensures LastRecord(audits, task, dispatchId, i) <==> LastRecord(audits[..n], task, dispatchId, i) {
          assert forall j :: 0 <= j < n ==> audits[..n][j] == audits[j];
        }
      }
    }
  }

  /** The task is APPROVED or COMPLETED and the last record of its dispatch approves. */
  ghost predicate Cleared(s: Store, t: string) {
    && t in s.tasks && t in s.dispatches && (s.tasks[t] == Approved || s.tasks[t] == Completed)
    && exists i :: LastRecord(s.audits, t, s.dispatches[t].id, i) && s.audits[i].result == Approved
  }

  predicate HasTarget(d: DispatchRow) {
    d.targetRoute.Some? && d.targetRoute.value != ""
  }

  /** The publication made for a dispatch: the target route when there is one, and otherwise the original one. */
  predicate IsPublicationOf(d: DispatchRow, t: string, p: Publication) {
    p.task == t && p.dispatchId == d.id && Some(p.route) == if HasTarget(d) then d.targetRoute else d.originalRoute
  }

  lemma ClearedOnRecords(s: Store, t: string)
    requires t in s.tasks && t in s.dispatches
    ensures var audit := Newest(s.audits, t, s.dispatches[t].id);
      Cleared(s, t) <==> s.tasks[t] in {Approved, Completed} && audit.Some? && audit.value.result == Approved
  {
    NewestIsLastRecord(s.audits, t, s.dispatches[t].id);
  }

  /** Every answer of publish, on the rows, and the one row it may add. */
  lemma PublishOnFields(s: Store, t: string, ordered: bool)
    ensures var r := PublishResult(s, t, ordered);
      var open := t in s.tasks && Unpublished(s, t);
      && (r.WasPublished? <==> t in s.tasks && !Unpublished(s, t))
      && (r.WasPublished? ==> r.publication in s.publications && r.publication.task == t)
      && (r == DispatchMissing <==> open && t !in s.dispatches)
      && (r == NotApproved <==> open && t in s.dispatches && !Cleared(s, t))
      && (r == RouteMissing <==>
            open && Cleared(s, t) && !HasTarget(s.dispatches[t]) && s.dispatches[t].originalRoute.None?)
      && (r.NowPublished? <==>
            open && Cleared(s, t) && ordered && (HasTarget(s.dispatches[t]) || s.dispatches[t].originalRoute.Some?))
      && (r.NowPublished? ==> IsPublicationOf(s.dispatches[t], t, r.publication))
      && AfterPublish(s, t, ordered) ==
           if r.NowPublished? then s.(publications := s.publications + [r.publication]) else s
  {
    if t in s.tasks && t in s.dispatches { ClearedOnRecords(s, t); }
  }

  /** A decision is refused for a reason of over 500 characters, or a rejection for one under two; and the reason
      that is stored. */
  lemma ReasonOnFields(approve: bool, reason: Option<string>)
    ensures var length := if reason.None? then 0 else |Stripped(reason.value)|;
      && (ReasonFault(approve, reason) == Some(ReasonTooLong) <==> length > 500)
      && (ReasonFault(approve, reason) == Some(ReasonRequired) <==> !approve && length < 2)
      && (ReasonFault(approve, reason) == None <==> length <= 500 && (approve || length >= 2))
      && (reason.Some? && length > 0 ==> StoredReason(approve, reason) == Stripped(reason.value))
      && (length == 0 ==> StoredReason(approve, reason) == if approve then APPROVED_BY_HAND else "")
  {
  }

  /** Every answer of decide, on the rows, and what a decision writes. */
  lemma DecideOnFields(s: Store, t: string, approve: bool, stale: bool, reason: string)
    ensures var r, s' := DecideResult(s, t, approve, stale), AfterDecide(s, t, approve, stale, reason);
      var waiting := t in s.tasks && s.tasks[t] == ReviewRequired;
      && (r == ReviewNotFound <==> t !in s.tasks) && (r == AlreadyDecided <==> t in s.tasks && !waiting)
      && (r == NothingToDecide <==> waiting && t !in s.dispatches)
      && (r == VersionConflict <==> waiting && t in s.dispatches && stale)
      && (r.Decided? <==> waiting && t in s.dispatches && !stale)
      && (r.Decided? ==>
            && r.status == (if approve then Approved else Rejected)
            && s'.tasks == s.tasks[t := r.status] && s'.publications == s.publications
            && s'.dispatches == s.dispatches[t := s.dispatches[t].(status := r.status)]
            && s'.audits == s.audits + [AuditRow(t, s.dispatches[t].id, r.status, true, reason)])
      && (!r.Decided? ==> s' == s)
  {
  }

  class Services {
    var store: Store

    constructor (store: Store)
      ensures this.store == store
    {
      this.store := store;
    }

    method Publish(t: string, ordered: bool) returns (r: PublishOutcome)
      modifies this
      ensures r == PublishResult(old(store), t, ordered) && store == AfterPublish(old(store), t, ordered)
    {
      if t !in store.tasks {
        return TaskNotFound;
      }
      var existing := FindPublication(store.publications, t);
      if existing.Some? {
        return WasPublished(existing.value);
      }
      if t !in store.dispatches {
        return DispatchMissing;
      }
      var d := store.dispatches[t];
      var audit := Newest(store.audits, t, d.id);
      if store.tasks[t] !in {Approved, Completed} || audit.None? || audit.value.result != Approved {
        return NotApproved;
      }
      var route := RouteToPublish(d);
      if route.None? {
        return RouteMissing;
      }
      if !ordered {
        return TaskNotFound;
      }
      var p := Publication(t, d.id, route.value);
      store := store.(publications := store.publications + [p]);
      return NowPublished(p);
    }

    method Decide(t: string, approve: bool, reason: Option<string>, stale: bool) returns (r: DecideOutcome)
      modifies this
      ensures var fault := ReasonFault(approve, reason);
        if fault.Some? then r == fault.value && store == old(store)
        else r == DecideResult(old(store), t, approve, stale)
             && store == AfterDecide(old(store), t, approve, stale, StoredReason(approve, reason))
    {
      var fault := ReasonFault(approve, reason);
      if fault.Some? {
        return fault.value;
      }
      if t !in store.tasks {
        return ReviewNotFound;
      }
      if store.tasks[t] != ReviewRequired {
        return AlreadyDecided;
      }
      if t !in store.dispatches {
        return NothingToDecide;
      }
      if stale {
        return VersionConflict;
      }
      var status := if approve then Approved else Rejected;
      var d := store.dispatches[t];
      store := store.(tasks := store.tasks[t := status], dispatches := store.dispatches[t := d.(status := status)]);
      store := store.(audits := store.audits + [AuditRow(t, d.id, status, true, StoredReason(approve, reason))]);
      return Decided(status);
    }

    /** _set_status: no guard of its own. */
    method SetStatus(t: string, status: Status) returns (ok: bool)
      modifies this
      ensures ok <==> t in old(store).tasks
      ensures store == AfterMark(old(store), t, status)
    {
      ok := t in store.tasks;
      if ok {
        store := store.(tasks := store.tasks[t := status]);
      }
    }
  }

  // ----- runs

  /** An automatic audit that has found no record and has not inserted its own yet. */
  datatype OpenAudit = OpenAudit(task: string, dispatchId: nat, result: Status, reason: string)

  datatype World = World(store: Store, open: map<nat, OpenAudit>)

  datatype Action =
    | Begin(t: string)
    | Dispatching(t: string, d: DispatchRow)
    | AuditRead(c: nat, t: string, result: Status, reason: string)
    | AuditInsert(c: nat)
    | AuditDrop(c: nat)
    | Mark(t: string, status: Status)
    | Deciding(t: string, approve: bool, stale: bool, reason: string)
    | Publishing(t: string, ordered: bool)

  /** What the worker allows itself: which status it replaces by which, which of these also while an audit of the
      task is open, and in which status it starts an audit. */
  datatype Discipline = Discipline(
    marks: (Status, Status) -> bool, marksDuringAudit: (Status, Status) -> bool, audits: Status -> bool)

  ghost predicate BeingAudited(w: World, t: string) {
    exists c :: c in w.open && w.open[c].task == t
  }

  ghost predicate MayMark(d: Discipline, w: World, t: string, status: Status) {
    && t in w.store.tasks && d.marks(w.store.tasks[t], status)
    && (BeingAudited(w, t) ==> d.marksDuringAudit(w.store.tasks[t], status))
  }

  predicate MayAudit(d: Discipline, s: Store, t: string) {
    t in s.tasks && t in s.dispatches && Newest(s.audits, t, s.dispatches[t].id).None? && d.audits(s.tasks[t])
  }

  ghost function Apply(d: Discipline, w: World, a: Action): World {
    var s := w.store;
    match a
    case Begin(t) => if t in s.tasks then w else w.(store := s.(tasks := s.tasks[t := Pending]))
    case Dispatching(t, row) =>
      if t !in s.tasks || t in s.dispatches then w else w.(store := s.(dispatches := s.dispatches[t := row]))
    case AuditRead(c, t, result, reason) =>
      if c in w.open || !MayAudit(d, s, t) then w
      else w.(open := w.open[c := OpenAudit(t, s.dispatches[t].id, result, reason)])
    case AuditInsert(c) =>
      if c !in w.open then w
      else
        var o := w.open[c];
        World(s.(audits := s.audits + [AuditRow(o.task, o.dispatchId, o.result, false, o.reason)]), w.open - {c})
    case AuditDrop(c) => w.(open := w.open - {c})
    case Mark(t, status) => if MayMark(d, w, t, status) then w.(store := AfterMark(s, t, status)) else w
    case Deciding(t, approve, stale, reason) => w.(store := AfterDecide(s, t, approve, stale, reason))
    case Publishing(t, ordered) => w.(store := AfterPublish(s, t, ordered))
  }

  ghost function Run(d: Discipline, actions: seq<Action>): World {
    if actions == [] then World(Store(map[], map[], [], []), map[])
    else Apply(d, Run(d, actions[..|actions| - 1]), actions[|actions| - 1])
  }

  // ----- safety

  ghost predicate OnePublication(s: Store) {
    forall i, j :: 0 <= i < j < |s.publications| ==> s.publications[i].task != s.publications[j].task
  }

  ghost predicate OneDecision(s: Store) {
    forall i, j :: 0 <= i < j < |s.audits| && s.audits[i].manual && s.audits[j].manual ==>
      s.audits[i].task != s.audits[j].task
  }

  ghost predicate PublishedIsApproved(s: Store) {
    forall p :: p in s.publications ==>
      var newest := Newest(s.audits, p.task, p.dispatchId);
      newest.Some? && newest.value.result == Approved
  }

  ghost predicate RejectedIsUnpublished(s: Store) {
    forall a, p :: a in s.audits && p in s.publications && a.manual && a.result == Rejected ==> p.task != a.task
  }

  /** A decision is written alike into the task, its dispatch and the audit record. */
  ghost predicate DecisionStands(s: Store) {
    forall a :: a in s.audits && a.manual ==>
      && a.task in s.tasks && s.tasks[a.task] == a.result
      && a.task in s.dispatches && s.dispatches[a.task].id == a.dispatchId && s.dispatches[a.task].status == a.result
  }

  ghost predicate Safe(s: Store) {
    OnePublication(s) && OneDecision(s) && PublishedIsApproved(s) && RejectedIsUnpublished(s)
  }
}
