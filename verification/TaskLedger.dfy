/** IdempotencyService.begin as a protocol: concurrent calls race to create the ledger row,
    the runtime thread and the creation event of a task, guarded by unique keys. */
module TaskLedger {
  import opened Options

  type CallId = nat

  datatype TaskRow = TaskRow(taskId: string, key: string, status: string)

  /** The tables: tasks, runtime threads by task, and "thread:created" events by task. */
  datatype Tables = Tables(tasks: seq<TaskRow>, threads: seq<string>, events: seq<string>)

  datatype Begin = Begin(taskId: string, key: string)

  datatype Decision = New(taskId: string, key: string)
                    | InProgress(taskId: string, key: string, status: string)
                    | Terminal(taskId: string, key: string, status: string)

  const TERMINAL_STATUSES: set<string> := {"APPROVED", "COMPLETED", "DLQ", "FAILED", "REVIEW_REQUIRED"}

  function DecisionOf(row: TaskRow): Decision {
    if row.status in TERMINAL_STATUSES then Terminal(row.taskId, row.key, row.status)
    else InProgress(row.taskId, row.key, row.status)
  }

  // ----- reading the ledger

  function ByTask(rows: seq<TaskRow>, t: string): (r: Option<TaskRow>)
    ensures r.Some? ==> r.value in rows && r.value.taskId == t
    ensures r.None? ==> forall x :: x in rows ==> x.taskId != t
  {
    if rows == [] then None else if rows[0].taskId == t then Some(rows[0]) else ByTask(rows[1..], t)
  }

  function ByKey(rows: seq<TaskRow>, k: string): (r: Option<TaskRow>)
    ensures r.Some? ==> r.value in rows && r.value.key == k
    ensures r.None? ==> forall x :: x in rows ==> x.key != k
  {
    if rows == [] then None else if rows[0].key == k then Some(rows[0]) else ByKey(rows[1..], k)
  }

  datatype Lookup = Absent | Found(row: TaskRow) | Conflicting

  /** _existing: by task id and by key, and an error when they disagree. */
  function Existing(rows: seq<TaskRow>, b: Begin): Lookup {
    var byTask, byKey := ByTask(rows, b.taskId), ByKey(rows, b.key);
    if byTask.Some? && byTask.value.key != b.key then Conflicting
    else if byKey.Some? && byKey.value.taskId != b.taskId then Conflicting
    else if byTask.Some? then Found(byTask.value)
    else if byKey.Some? then Found(byKey.value)
    else Absent
  }

  // ----- the interleaving

  datatype Phase =
    | Started
    | Checked
    | TaskFlushed
    | ThreadFlushed
    | RolledBack
    | Returned(decision: Decision)
    | Conflicted
    | Failed

  datatype World = World(tables: Tables, calls: map<CallId, Begin>, phases: map<CallId, Phase>, creators: seq<CallId>)

  datatype Action =
    | Check(c: CallId)
    | FlushTask(c: CallId)
    | FlushThread(c: CallId)
    | Commit(c: CallId)
    | Reread(c: CallId)
    | Abort(c: CallId)
    | SetStatus(taskId: string, status: string)

  /** A call whose uncommitted rows hold unique keys. */
  predicate Holds(w: World, c: CallId) {
    c in w.phases && (w.phases[c].TaskFlushed? || w.phases[c].ThreadFlushed?)
  }

  predicate Collide(a: Begin, b: Begin) {
    a.taskId == b.taskId || a.key == b.key
  }

  /** An insert waits while another open transaction holds the same unique key. */
  ghost predicate Blocked(w: World, c: CallId)
    requires c in w.calls
  {
    exists d :: d in w.calls && d != c && Holds(w, d) && Collide(w.calls[c], w.calls[d])
  }

  predicate Taken(rows: seq<TaskRow>, b: Begin) {
    ByTask(rows, b.taskId).Some? || ByKey(rows, b.key).Some?
  }

  function Answer(rows: seq<TaskRow>, b: Begin, absent: Phase): Phase {
    match Existing(rows, b)
    case Found(row) => Returned(DecisionOf(row))
    case Conflicting => Conflicted
    case Absent => absent
  }

  function WithStatus(rows: seq<TaskRow>, t: string, status: string): (r: seq<TaskRow>)
    ensures |r| == |rows|
    ensures forall i :: 0 <= i < |rows| ==> r[i].taskId == rows[i].taskId && r[i].key == rows[i].key
    ensures forall i :: 0 <= i < |rows| ==> r[i].status == if rows[i].taskId == t then status else rows[i].status
  {
    if rows == [] then []
    else [if rows[0].taskId == t then rows[0].(status := status) else rows[0]] + WithStatus(rows[1..], t, status)
  }

  /** The task row, its thread and its creation event, stored together. */
  function Recorded(t: Tables, b: Begin): Tables {
    Tables(t.tasks + [TaskRow(b.taskId, b.key, "PENDING")], t.threads + [b.taskId], t.events + [b.taskId])
  }

  ghost function CallStep(w: World, a: Action, c: CallId): World
    requires c in w.calls && c in w.phases
  {
    var b, p, t := w.calls[c], w.phases[c], w.tables;
    match a
    case Check(_) => if p.Started? then w.(phases := w.phases[c := Answer(t.tasks, b, Checked)]) else w
    case FlushTask(_) =>
      if !p.Checked? || Blocked(w, c) then w
      else w.(phases := w.phases[c := if Taken(t.tasks, b) then RolledBack else TaskFlushed])
    case FlushThread(_) =>
      if p.TaskFlushed? then w.(phases := w.phases[c := if b.taskId in t.threads then RolledBack else ThreadFlushed])
        else w
    case Commit(_) =>
      if !p.ThreadFlushed? then w
      else if b.taskId in t.events then w.(phases := w.phases[c := RolledBack])
      else World(Recorded(t, b), w.calls, w.phases[c := Returned(New(b.taskId, b.key))], w.creators + [c])
    case Reread(_) => if p.RolledBack? then w.(phases := w.phases[c := Answer(t.tasks, b, Failed)]) else w
    case Abort(_) =>
      if p.Returned? || p.Conflicted? || p.Failed? then w else w.(phases := w.phases[c := Failed])
    case SetStatus(_, _) => w
  }

  ghost function Apply(w: World, a: Action): World {
    if a.SetStatus? then w.(tables := w.tables.(tasks := WithStatus(w.tables.tasks, a.taskId, a.status)))
    else if a.c in w.calls && a.c in w.phases then CallStep(w, a, a.c)
    else w
  }

  ghost function Run(w: World, actions: seq<Action>): World {
    if actions == [] then w else Apply(Run(w, actions[..|actions| - 1]), actions[|actions| - 1])
  }

  ghost predicate Initial(w: World) {
    w.tables == Tables([], [], []) && w.creators == [] && w.phases.Keys == w.calls.Keys
    && forall c :: c in w.phases ==> w.phases[c] == Started
  }

  // ----- the code of one call

  /** A single call against given tables. */
  function Alone(t: Tables, b: Begin, p: Phase): World {
    World(t, map[0 := b], map[0 := p], [])
  }

  /** A step of the lone call itself, which does not crash. */
  predicate OwnStep(a: Action) {
    !a.SetStatus? && !a.Abort? && a.c == 0
  }

  ghost predicate Leads(t: Tables, b: Begin, actions: seq<Action>, p: Phase) {
    Run(Alone(t, b, Started), actions) == Alone(t, b, p) && forall a :: a in actions ==> OwnStep(a)
  }

  lemma RunStep(w: World, actions: seq<Action>, a: Action)
    ensures Run(w, actions + [a]) == Apply(Run(w, actions), a)
  {
  }

  lemma {:induction false} LeadsOn(t: Tables, b: Begin, actions: seq<Action>, p: Phase, a: Action, p': Phase)
    requires Leads(t, b, actions, p) && OwnStep(a) && Apply(Alone(t, b, p), a) == Alone(t, b, p')
    ensures Leads(t, b, actions + [a], p')
  {
  }

  lemma {:induction false} RereadLeads(t: Tables, b: Begin, before: seq<Action>)
    requires Leads(t, b, before, RolledBack)
    ensures Leads(t, b, before + [Reread(0)], Answer(t.tasks, b, Failed))
  {
    LeadsOn(t, b, before, RolledBack, Reread(0), Answer(t.tasks, b, Failed));
  }

  lemma {:induction false} CommitLeads(t: Tables, b: Begin, before: seq<Action>)
    requires Leads(t, b, before, ThreadFlushed) && b.taskId !in t.events
    ensures var w := Run(Alone(t, b, Started), before + [Commit(0)]);
      w.tables == Recorded(t, b) && w.phases == map[0 := Returned(New(b.taskId, b.key))]
  {
    RunStep(Alone(t, b, Started), before, Commit(0));
  }

  // ----- the outcome of an undisturbed begin, on the rows

  ghost predicate OneToOne(rows: seq<TaskRow>) {
    forall i, j :: 0 <= i < j < |rows| ==> rows[i].taskId != rows[j].taskId && rows[i].key != rows[j].key
  }

  predicate HasId(rows: seq<TaskRow>, taskId: string) {
    exists i :: 0 <= i < |rows| && rows[i].taskId == taskId
  }

  predicate HasKey(rows: seq<TaskRow>, key: string) {
    exists i :: 0 <= i < |rows| && rows[i].key == key
  }

  /** What is answered about a stored row: terminal in five statuses, in progress in all others. */
  function AnswerFor(row: TaskRow): Phase {
    Returned(
      if row.status == "APPROVED" || row.status == "COMPLETED" || row.status == "DLQ" || row.status == "FAILED"
         || row.status == "REVIEW_REQUIRED"
      then Terminal(row.taskId, row.key, row.status) else InProgress(row.taskId, row.key, row.status))
  }

  /** What reading the ledger comes to: the stored pair, a conflict when id or key is stored with another partner, or
      `absent` when neither is known. */
  ghost predicate Reads(rows: seq<TaskRow>, b: Begin, absent: Phase, p: Phase) {
    && (!HasId(rows, b.taskId) && !HasKey(rows, b.key) ==> p == absent)
    && (OneToOne(rows) ==> forall row :: row in rows ==>
          && (row.taskId == b.taskId && row.key == b.key ==> p == AnswerFor(row))
          && (row.taskId == b.taskId && row.key != b.key ==> p == Conflicted)
          && (row.taskId != b.taskId && row.key == b.key ==> p == Conflicted))
  }

  lemma AnswerOfRow(row: TaskRow)
    ensures Returned(DecisionOf(row)) == AnswerFor(row)
  {
  }

  lemma AnswerReads(rows: seq<TaskRow>, b: Begin, absent: Phase)
    ensures Reads(rows, b, absent, Answer(rows, b, absent))
  {
    var byTask, byKey := ByTask(rows, b.taskId), ByKey(rows, b.key);
    if byTask.Some? { AnswerOfRow(byTask.value); }
    if OneToOne(rows) {
      forall row | row in rows && row.taskId == b.taskId ensures byTask == Some(row) {
        OneRow(rows, row, byTask.value);
      }
      forall row | row in rows && row.key == b.key ensures byKey == Some(row) { OneRow(rows, row, byKey.value); }
    }
    if byTask.Some? { assert HasId(rows, b.taskId); }
    if byKey.Some? { assert HasKey(rows, b.key); }
  }

  lemma TakenOnRows(rows: seq<TaskRow>, b: Begin)
    ensures Taken(rows, b) <==> HasId(rows, b.taskId) || HasKey(rows, b.key)
  {
  }

  lemma OneRow(rows: seq<TaskRow>, a: TaskRow, b: TaskRow)
    requires OneToOne(rows) && a in rows && b in rows && (a.taskId == b.taskId || a.key == b.key)
    ensures a == b
  {
  }

  /** begin as a whole: a new pair is recorded with its thread and event and answered NEW; a known one is answered from
      its row; and whatever is not recorded leaves the tables as they were. */
  ghost predicate Outcome(before: Tables, after: Tables, b: Begin, p: Phase) {
    if !HasId(before.tasks, b.taskId) && !HasKey(before.tasks, b.key)
       && b.taskId !in before.threads && b.taskId !in before.events
    then
      && p == Returned(New(b.taskId, b.key)) && after.tasks == before.tasks + [TaskRow(b.taskId, b.key, "PENDING")]
      && after.threads == before.threads + [b.taskId] && after.events == before.events + [b.taskId]
    else after == before && Reads(before.tasks, b, Failed, p)
  }

  class Ledger {
    var tables: Tables

    constructor (tables: Tables)
      ensures this.tables == tables
    {
      this.tables := tables;
    }

    /** begin, undisturbed: what it does to the tables and answers, which is what a run of the protocol by its own
        steps does. */
    method BeginTask(b: Begin) returns (p: Phase, ghost actions: seq<Action>)
      modifies this
      ensures p.Returned? || p.Conflicted? || p.Failed?
      ensures Outcome(old(tables), tables, b, p)
      ensures forall a :: a in actions ==> OwnStep(a)
      ensures var w := Run(Alone(old(tables), b, Started), actions); w.tables == tables && w.phases == map[0 := p]
    {
      p := Answer(tables.tasks, b, Checked);
      LeadsOn(tables, b, [], Started, Check(0), p);
      actions := [] + [Check(0)];
      AnswerReads(tables.tasks, b, Checked);
      if p.Checked? {
        p, actions := FlushRows(b, actions);
        if p.RolledBack? {
          p, actions := ReadAgain(b, actions);
        } else {
          CommitLeads(tables, b, actions);
          actions := actions + [Commit(0)];
          tables := Recorded(tables, b);
          p := Returned(New(b.taskId, b.key));
        }
      }
    }

    /** The flushes of the task row, its thread and its creation event: all go through, or all are rolled back. */
    method FlushRows(b: Begin, ghost before: seq<Action>) returns (p: Phase, ghost actions: seq<Action>)
      requires Leads(tables, b, before, Checked)
      ensures p.RolledBack? || (p.ThreadFlushed? && b.taskId !in tables.events)
      ensures p.ThreadFlushed? <==>
                !HasId(tables.tasks, b.taskId) && !HasKey(tables.tasks, b.key)
                && b.taskId !in tables.threads && b.taskId !in tables.events
      ensures Leads(tables, b, actions, p)
    {
      TakenOnRows(tables.tasks, b);
      p := if Taken(tables.tasks, b) then RolledBack else TaskFlushed;
      LeadsOn(tables, b, before, Checked, FlushTask(0), p);
      actions := before + [FlushTask(0)];
      if p.TaskFlushed? {
        p := if b.taskId in tables.threads then RolledBack else ThreadFlushed;
        LeadsOn(tables, b, actions, TaskFlushed, FlushThread(0), p);
        actions := actions + [FlushThread(0)];
        if p.ThreadFlushed? && b.taskId in tables.events {
          p := RolledBack;
          LeadsOn(tables, b, actions, ThreadFlushed, Commit(0), p);
          actions := actions + [Commit(0)];
        }
      }
    }

    /** After a rollback: look for the winner's row, or re-raise. */
    method ReadAgain(b: Begin, ghost before: seq<Action>) returns (p: Phase, ghost actions: seq<Action>)
      requires Leads(tables, b, before, RolledBack)
      ensures p.Returned? || p.Conflicted? || p.Failed?
      ensures Reads(tables.tasks, b, Failed, p)
      ensures Leads(tables, b, actions, p)
    {
      p := Answer(tables.tasks, b, Failed);
      AnswerReads(tables.tasks, b, Failed);
      RereadLeads(tables, b, before);
      actions := before + [Reread(0)];
    }
  }

  // ----- the invariant

  /** Each task row comes with its own thread and its own creation event. */
  ghost predicate Accompanied(t: Tables) {
    |t.threads| == |t.tasks| == |t.events|
    && forall i :: 0 <= i < |t.tasks| ==> t.threads[i] == t.tasks[i].taskId && t.events[i] == t.tasks[i].taskId
  }

  ghost predicate HoldersClear(w: World) {
    && (forall c :: c in w.calls && Holds(w, c) ==> !Taken(w.tables.tasks, w.calls[c]))
    && (forall c, d :: c in w.calls && d in w.calls && c != d && Holds(w, c) && Holds(w, d) ==>
      !Collide(w.calls[c], w.calls[d]))
  }

  /** Row i was created by creators[i], which answered NEW. */
  ghost predicate CreatedBy(w: World, i: nat)
    requires i < |w.tables.tasks| && i < |w.creators|
  {
    var c, row := w.creators[i], w.tables.tasks[i];
    c in w.calls && c in w.phases && w.calls[c] == Begin(row.taskId, row.key)
      && w.phases[c] == Returned(New(row.taskId, row.key))
  }

  /** An answer names the caller's own pair, and NEW is only answered by a creator. */
  ghost predicate AnswerOk(w: World, c: CallId)
    requires c in w.phases && c in w.calls
  {
    w.phases[c].Returned? ==>
      && w.phases[c].decision.taskId == w.calls[c].taskId && w.phases[c].decision.key == w.calls[c].key
      && (w.phases[c].decision.New? ==> exists i :: 0 <= i < |w.creators| && w.creators[i] == c)
  }

  ghost predicate Inv(w: World) {
    && w.phases.Keys == w.calls.Keys
    && OneToOne(w.tables.tasks) && Accompanied(w.tables) && HoldersClear(w)
    && |w.creators| == |w.tables.tasks|
    && (forall i :: 0 <= i < |w.creators| ==> CreatedBy(w, i))
    && (forall c :: c in w.phases ==> AnswerOk(w, c))
  }

  /** A step that only moves one call, which has not created anything and does not become a holder. */
  lemma MoveKeeps(w: World, c: CallId, p: Phase)
    requires Inv(w) && c in w.phases && !w.phases[c].Returned?
    requires p.Returned? ==>
             !p.decision.New? && p.decision.taskId == w.calls[c].taskId && p.decision.key == w.calls[c].key
    requires p.TaskFlushed? || p.ThreadFlushed? ==>
               Holds(w, c) || (!Taken(w.tables.tasks, w.calls[c]) && !Blocked(w, c))
    ensures Inv(w.(phases := w.phases[c := p]))
  {
    var w' := w.(phases := w.phases[c := p]);
    forall i | 0 <= i < |w'.creators| ensures CreatedBy(w', i) { assert CreatedBy(w, i); }
    forall d | d in w'.phases ensures AnswerOk(w', d) { assert AnswerOk(w, d); }
    assert HoldersClear(w') by {
      forall d, e | d in w'.calls && e in w'.calls && d != e && Holds(w', d) && Holds(w', e)
        ensures !Collide(w'.calls[d], w'.calls[e])
      {
        assert d != c ==> Holds(w, d);
        assert e != c ==> Holds(w, e);
      }
    }
  }

  lemma CommitKeeps(w: World, c: CallId)
    requires Inv(w) && c in w.phases && w.phases[c].ThreadFlushed? && w.calls[c].taskId !in w.tables.events
    ensures Inv(CallStep(w, Commit(c), c))
  {
    var w', b := CallStep(w, Commit(c), c), w.calls[c];
    assert Holds(w, c) && !Taken(w.tables.tasks, b);
    forall i | 0 <= i < |w.tables.tasks|
      ensures w.tables.tasks[i].taskId != b.taskId && w.tables.tasks[i].key != b.key
    {
      assert w.tables.tasks[i] in w.tables.tasks;
    }
    forall i | 0 <= i < |w'.creators| ensures CreatedBy(w', i) {
      if i < |w.creators| { assert CreatedBy(w, i); }
    }
    forall d | d in w'.phases ensures AnswerOk(w', d) {
      if d == c { assert w'.creators[|w.creators|] == c; }
      else if w.phases[d].Returned? && w.phases[d].decision.New? {
        assert AnswerOk(w, d);
        var i :| 0 <= i < |w.creators| && w.creators[i] == d;
        assert w'.creators[i] == d;
      }
    }
    CommitKeepsHolders(w, c);
  }

  lemma CommitKeepsHolders(w: World, c: CallId)
    requires Inv(w) && c in w.phases && w.phases[c].ThreadFlushed? && w.calls[c].taskId !in w.tables.events
    ensures HoldersClear(CallStep(w, Commit(c), c))
  {
  }

  lemma SetStatusKeeps(w: World, t: string, status: string)
    requires Inv(w)
    ensures Inv(Apply(w, SetStatus(t, status)))
  {
    var w' := Apply(w, SetStatus(t, status));
    forall i | 0 <= i < |w'.creators| ensures CreatedBy(w', i) { assert CreatedBy(w, i); }
    forall d | d in w'.phases ensures AnswerOk(w', d) { assert AnswerOk(w, d); }
    forall d | d in w'.calls && Holds(w', d) ensures !Taken(w'.tables.tasks, w'.calls[d]) {
      assert Holds(w, d);
      TakenByKeys(w.tables.tasks, w'.tables.tasks, w.calls[d]);
    }
    forall d, e | d in w'.calls && e in w'.calls && d != e && Holds(w', d) && Holds(w', e)
      ensures !Collide(w'.calls[d], w'.calls[e])
    {
      assert Holds(w, d) && Holds(w, e);
    }
  }

  lemma TakenByKeys(a: seq<TaskRow>, b: seq<TaskRow>, g: Begin)
    requires |a| == |b| && forall i :: 0 <= i < |a| ==> a[i].taskId == b[i].taskId && a[i].key == b[i].key
    ensures Taken(b, g) ==> Taken(a, g)
  {
  }

  lemma ApplyKeeps(w: World, a: Action)
    requires Inv(w)
    ensures Inv(Apply(w, a))
  {
    if a.SetStatus? {
      SetStatusKeeps(w, a.taskId, a.status);
    } else if a.c in w.calls && a.c in w.phases && Apply(w, a) != w {
      if a.Commit? && w.calls[a.c].taskId !in w.tables.events {
        CommitKeeps(w, a.c);
      } else {
        MoveKeeps(w, a.c, Apply(w, a).phases[a.c]);
      }
    }
  }

  lemma {:induction false} RunKeeps(start: World, actions: seq<Action>)
    requires Initial(start)
    ensures Inv(Run(start, actions)) && Run(start, actions).calls == start.calls
  {
    if actions != [] {
      RunKeeps(start, actions[..|actions| - 1]);
      ApplyKeeps(Run(start, actions[..|actions| - 1]), actions[|actions| - 1]);
    }
  }

  // ----- what every interleaving promises

  /** Task ids and idempotency keys stay one to one; each task has exactly one thread and one creation event,
      and there is no thread or event without its task: a rolled-back call leaves nothing. */
  lemma LedgerIsOneToOne(start: World, actions: seq<Action>)
    requires Initial(start)
    ensures var t := Run(start, actions).tables;
      && OneToOne(t.tasks)
      && |t.threads| == |t.tasks| == |t.events|
      && (forall i :: 0 <= i < |t.tasks| ==> t.threads[i] == t.tasks[i].taskId && t.events[i] == t.tasks[i].taskId)
      && (forall i, j :: 0 <= i < j < |t.threads| ==> t.threads[i] != t.threads[j] && t.events[i] != t.events[j])
  {
    RunKeeps(start, actions);
  }

  ghost predicate AnsweredNew(w: World, c: CallId, taskId: string) {
    c in w.calls && c in w.phases && w.calls[c].taskId == taskId && w.phases[c].Returned? && w.phases[c].decision.New?
  }

  lemma NewIsTheCreator(w: World, c: CallId, i: nat)
    requires Inv(w) && i < |w.tables.tasks| && AnsweredNew(w, c, w.tables.tasks[i].taskId)
    ensures c == w.creators[i]
  {
    assert AnswerOk(w, c);
    var j :| 0 <= j < |w.creators| && w.creators[j] == c;
    assert CreatedBy(w, j);
  }

  /** For every created pair exactly one call answers NEW. */
  lemma ExactlyOneNew(start: World, actions: seq<Action>, i: nat)
    requires Initial(start) && i < |Run(start, actions).tables.tasks|
    ensures var w := Run(start, actions); var row := w.tables.tasks[i];
      && i < |w.creators| && AnsweredNew(w, w.creators[i], row.taskId)
      && forall c :: AnsweredNew(w, c, row.taskId) ==> c == w.creators[i]
  {
    RunKeeps(start, actions);
    var w := Run(start, actions);
    assert CreatedBy(w, i);
    forall c | AnsweredNew(w, c, w.tables.tasks[i].taskId) ensures c == w.creators[i] { NewIsTheCreator(w, c, i); }
  }

  /** Every answer is about the caller's own pair, and NEW means that the pair is in the ledger. */
  lemma AnswersNameTheirPair(start: World, actions: seq<Action>, c: CallId)
    requires Initial(start) && c in start.calls && c in Run(start, actions).phases
    requires Run(start, actions).phases[c].Returned?
    ensures var w := Run(start, actions); var d := w.phases[c].decision;
      && d.taskId == start.calls[c].taskId && d.key == start.calls[c].key
      && (d.New? ==> exists row :: row in w.tables.tasks && row.taskId == d.taskId && row.key == d.key)
  {
    RunKeeps(start, actions);
    var w := Run(start, actions);
    assert AnswerOk(w, c);
    if w.phases[c].decision.New? {
      var j :| 0 <= j < |w.creators| && w.creators[j] == c;
      assert CreatedBy(w, j) && w.tables.tasks[j] in w.tables.tasks;
    }
  }
}
