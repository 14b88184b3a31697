/** RedisExecutionLock: a token lock with expiry. Renewal and release each watch the key,
    read it and then execute, and every other client may act in between. */
module ExecutionLock {
  import opened Options

  type Token = string

  datatype Lock = Lock(token: Token, expires: real)

  /** The shared server: `stamps` counts the writes to a key, which is what WATCH observes. */
  datatype Server = Server(now: real, locks: map<string, Lock>, stamps: map<string, nat>)

  function Stamp(s: Server, key: string): nat {
    if key in s.stamps then s.stamps[key] else 0
  }

  predicate Live(s: Server, key: string) {
    key in s.locks && s.now < s.locks[key].expires
  }

  /** GET: an expired key reads as absent. */
  function Value(s: Server, key: string): Option<Token> {
    if Live(s, key) then Some(s.locks[key].token) else None
  }

  /** SET key token NX PX ttl. */
  function SetIfAbsent(s: Server, key: string, token: Token, ttl: real): Server {
    if Live(s, key) then s
    else Server(s.now, s.locks[key := Lock(token, s.now + ttl)], s.stamps[key := Stamp(s, key) + 1])
  }

  datatype Operation = Renewal | Release

  /** The queued command: PEXPIRE or DEL. */
  function Write(s: Server, key: string, op: Operation, ttl: real): Server {
    if !Live(s, key) then s
    else match op
      case Renewal => Server(s.now, s.locks[key := s.locks[key].(expires := s.now + ttl)],
        s.stamps[key := Stamp(s, key) + 1])
      case Release => Server(s.now, s.locks - {key}, s.stamps[key := Stamp(s, key) + 1])
  }

  /** EXEC goes through when the watched key was neither written nor expired since WATCH. */
  predicate ExecSucceeds(s: Server, key: string, stamp: nat) {
    Stamp(s, key) == stamp && Live(s, key)
  }

  /** Renewal interval in milliseconds: a third of the time to live, at least one. */
  function RenewalInterval(ttl: real): real {
    if ttl / 3.0 >= 1.0 then ttl / 3.0 else 1.0
  }

  // ----- the client, undisturbed

  class Client {
    var server: Server
    const ttl: real

    constructor (server: Server, ttl: real)
      ensures this.server == server && this.ttl == ttl
    {
      this.server, this.ttl := server, ttl;
    }

    method Acquire(key: string, token: Token) returns (acquired: bool)
      modifies this
      ensures acquired <==> !Live(old(server), key)
      ensures server == SetIfAbsent(old(server), key, token, ttl)
    {
      acquired := !Live(server, key);
      server := SetIfAbsent(server, key, token, ttl);
    }

    /** compare_and_extend and compare_and_delete inside one transaction. */
    method CompareAndWrite(key: string, token: Token, acquired: bool, op: Operation) returns (done: bool)
      modifies this
      ensures done <==> acquired && Value(old(server), key) == Some(token)
      ensures server == if done then Write(old(server), key, op, ttl) else old(server)
    {
      if !acquired {
        return false;
      }
      var stamp := Stamp(server, key);
      var value := Value(server, key);
      if value != Some(token) {
        return false;
      }
      done := ExecSucceeds(server, key, stamp);
      server := Write(server, key, op, ttl);
    }
  }

  // ----- many clients

  /** Where a handle's transaction stands. */
  datatype Phase = Idle | Watching(op: Operation, stamp: nat) | Matched(op: Operation, stamp: nat)

  /** `lease` is when the client last knew its lock to end. */
  datatype Handle = Handle(key: string, acquired: bool, released: bool, lease: real, phase: Phase)

  datatype World = World(server: Server, handles: map<Token, Handle>)

  datatype Action =
    | Tick(delta: real)
    | Acquire(key: string, token: Token)
    | Watch(token: Token, op: Operation)
    | Get(token: Token)
    | Exec(token: Token)

  function Move(w: World, t: Token, p: Phase): World
    requires t in w.handles
  {
    w.(handles := w.handles[t := w.handles[t].(phase := p)])
  }

  function ExecStep(ttl: real, w: World, t: Token, op: Operation, stamp: nat): World
    requires t in w.handles
  {
    var h := w.handles[t];
    if !ExecSucceeds(w.server, h.key, stamp) then Move(w, t, Idle)   // WatchError: the transaction starts over
    else
      World(Write(w.server, h.key, op, ttl),
            w.handles[t := match op
                           case Renewal => h.(lease := w.server.now + ttl, phase := Idle)
                           case Release => h.(released := true, phase := Idle)])
  }

  /** One step of the system; tokens are fresh, as uuid4 makes them. Steps that are not enabled change nothing. */
  function Apply(ttl: real, w: World, a: Action): World {
    match a
    case Tick(delta) => if delta >= 0.0 then w.(server := w.server.(now := w.server.now + delta)) else w
    case Acquire(key, t) =>
      if t in w.handles then w
      else World(SetIfAbsent(w.server, key, t, ttl),
                 w.handles[t := Handle(key, !Live(w.server, key), false, w.server.now + ttl, Idle)])
    case Watch(t, op) =>
      if t in w.handles && w.handles[t].acquired && w.handles[t].phase.Idle?
      then Move(w, t, Watching(op, Stamp(w.server, w.handles[t].key))) else w
    case Get(t) =>
      if t in w.handles && w.handles[t].phase.Watching? then
        var h := w.handles[t];
        Move(w, t, if Value(w.server, h.key) == Some(t) then Matched(h.phase.op, h.phase.stamp) else Idle)
      else w
    case Exec(t) =>
      if t in w.handles && w.handles[t].phase.Matched?
      then ExecStep(ttl, w, t, w.handles[t].phase.op, w.handles[t].phase.stamp) else w
  }

  function Run(ttl: real, w: World, actions: seq<Action>): World {
    if actions == [] then w else Apply(ttl, Run(ttl, w, actions[..|actions| - 1]), actions[|actions| - 1])
  }

  ghost predicate Initial(w: World) {
    w.server.locks == map[] && w.handles == map[]
  }

  // ----- the invariant

  /** The client believes it holds the lock. */
  predicate Holds(w: World, t: Token) {
    t in w.handles && w.handles[t].acquired && !w.handles[t].released && w.server.now < w.handles[t].lease
  }

  /** A stored lock belongs to a handle that acquired it, and ends when that handle expects. */
  ghost predicate LockOwned(w: World, key: string)
    requires key in w.server.locks
  {
    var l := w.server.locks[key];
    l.token in w.handles && w.handles[l.token].key == key && w.handles[l.token].acquired && !w.handles[l.token].released
    && w.handles[l.token].lease == l.expires
  }

  ghost predicate HandleOk(w: World, t: Token)
    requires t in w.handles
  {
    var h := w.handles[t];
    && (Holds(w, t) ==> h.key in w.server.locks && w.server.locks[h.key].token == t)
    && (Holds(w, t) && !h.phase.Idle? ==> h.phase.stamp == Stamp(w.server, h.key))
    && (h.phase.Watching? ==> h.acquired && h.phase.stamp <= Stamp(w.server, h.key))
    && (h.phase.Matched? ==>
          h.acquired && h.phase.stamp <= Stamp(w.server, h.key)
          && (h.phase.stamp == Stamp(w.server, h.key) ==> h.key in w.server.locks && w.server.locks[h.key].token == t))
  }

  ghost predicate Inv(w: World) {
    (forall key :: key in w.server.locks ==> LockOwned(w, key)) && (forall t :: t in w.handles ==> HandleOk(w, t))
  }

  lemma MoveKeeps(w: World, t: Token, p: Phase)
    requires Inv(w) && t in w.handles
    requires HandleOk(Move(w, t, p), t)
    ensures Inv(Move(w, t, p))
  {
  }

  lemma TickKeeps(ttl: real, w: World, delta: real)
    requires Inv(w) && delta >= 0.0
    ensures Inv(Apply(ttl, w, Tick(delta)))
  {
  }

  lemma AcquireKeeps(ttl: real, w: World, key: string, t: Token)
    requires Inv(w) && t !in w.handles
    ensures Inv(Apply(ttl, w, Acquire(key, t)))
  {
    var w' := Apply(ttl, w, Acquire(key, t));
    forall k | k in w'.server.locks ensures LockOwned(w', k) {
      if k in w.server.locks { assert LockOwned(w, k); }
    }
    forall u | u in w'.handles ensures HandleOk(w', u) {
      if u != t { assert HandleOk(w, u); }
    }
  }

  lemma ExecKeeps(ttl: real, w: World, t: Token)
    requires Inv(w) && t in w.handles && w.handles[t].phase.Matched?
    requires ExecSucceeds(w.server, w.handles[t].key, w.handles[t].phase.stamp)
    ensures Inv(Apply(ttl, w, Exec(t)))
  {
    var w', key := Apply(ttl, w, Exec(t)), w.handles[t].key;
    assert HandleOk(w, t) && LockOwned(w, key);
    forall k | k in w'.server.locks ensures LockOwned(w', k) { assert LockOwned(w, k); }
    forall u | u in w'.handles ensures HandleOk(w', u) { assert HandleOk(w, u); }
  }

  lemma ApplyKeeps(ttl: real, w: World, a: Action)
    requires Inv(w)
    ensures Inv(Apply(ttl, w, a))
  {
    match a
    case Tick(delta) => if delta >= 0.0 { TickKeeps(ttl, w, delta); }
    case Acquire(key, t) => if t !in w.handles { AcquireKeeps(ttl, w, key, t); }
    case Watch(t, op) =>
      if Apply(ttl, w, a) != w { assert HandleOk(w, t); MoveKeeps(w, t, Apply(ttl, w, a).handles[t].phase); }
    case Get(t) =>
      if Apply(ttl, w, a) != w { assert HandleOk(w, t); MoveKeeps(w, t, Apply(ttl, w, a).handles[t].phase); }
    case Exec(t) =>
      if t in w.handles && w.handles[t].phase.Matched? {
        assert HandleOk(w, t);
        if ExecSucceeds(w.server, w.handles[t].key, w.handles[t].phase.stamp) {
          ExecKeeps(ttl, w, t);
        } else {
          MoveKeeps(w, t, Idle);
        }
      }
  }

  lemma {:induction false} RunKeeps(ttl: real, start: World, actions: seq<Action>)
    requires Initial(start)
    ensures Inv(Run(ttl, start, actions))
  {
    if actions != [] {
      RunKeeps(ttl, start, actions[..|actions| - 1]);
      ApplyKeeps(ttl, Run(ttl, start, actions[..|actions| - 1]), actions[|actions| - 1]);
    }
  }

  // ----- what every interleaving promises

  /** Two different clients never believe at once that they hold the same key; and who believes so is right. */
  lemma AtMostOneHolder(ttl: real, start: World, actions: seq<Action>, t: Token, u: Token)
    requires Initial(start) && Holds(Run(ttl, start, actions), t)
    ensures var w := Run(ttl, start, actions);
      && Value(w.server, w.handles[t].key) == Some(t)
      && (Holds(w, u) && w.handles[u].key == w.handles[t].key ==> u == t)
  {
    RunKeeps(ttl, start, actions);
    var w := Run(ttl, start, actions);
    assert HandleOk(w, t);
    assert LockOwned(w, w.handles[t].key);
    if Holds(w, u) { assert HandleOk(w, u); }
  }

  predicate ActsFor(a: Action, t: Token) {
    a.Exec? && a.token == t
  }

  /** A live lock is extended or deleted only by a transaction of its own token, whatever a stale handle tries. */
  lemma OnlyTheOwnerTouchesALiveLock(ttl: real, start: World, actions: seq<Action>, a: Action, key: string)
    requires Initial(start) && Live(Run(ttl, start, actions).server, key)
    ensures var w := Run(ttl, start, actions); var w' := Apply(ttl, w, a);
      (key in w'.server.locks && w'.server.locks[key] == w.server.locks[key]) || ActsFor(a, w.server.locks[key].token)
  {
    RunKeeps(ttl, start, actions);
    var w := Run(ttl, start, actions);
    if a.Exec? && a.token in w.handles { assert HandleOk(w, a.token); }
  }

  /** Nobody can make the renewal or release of a holder fail: GET answers with its token and EXEC goes through. */
  lemma HolderIsNotDisturbed(ttl: real, start: World, actions: seq<Action>, t: Token)
    requires Initial(start) && Holds(Run(ttl, start, actions), t)
    ensures var w := Run(ttl, start, actions); var h := w.handles[t];
      && (h.phase.Watching? ==> Apply(ttl, w, Get(t)).handles[t].phase == Matched(h.phase.op, h.phase.stamp))
      && (h.phase.Matched? ==> ExecSucceeds(w.server, h.key, h.phase.stamp))
  {
    RunKeeps(ttl, start, actions);
    AtMostOneHolder(ttl, start, actions, t, t);
    assert HandleOk(Run(ttl, start, actions), t);
  }

  /** The step is an attempt of the client to hold on to its key: it acquires, or sends the EXEC of a renewal. */
  predicate Attempts(w: World, a: Action, t: Token) {
    || (a.Acquire? && a.token == t && t !in w.handles)
    || (a.Exec? && a.token == t && t in w.handles && w.handles[t].phase.Matched? && w.handles[t].phase.op.Renewal?)
  }

  /** When the client last attempted to, whatever came of it. */
  function LastAttempt(ttl: real, start: World, actions: seq<Action>, t: Token): Option<real> {
    if actions == [] then None
    else
      var init, a := actions[..|actions| - 1], actions[|actions| - 1];
      var w := Run(ttl, start, init);
      if Attempts(w, a, t) then Some(w.server.now) else LastAttempt(ttl, start, init, t)
  }

  /** Acquired and not released yet, as the client sees it. */
  predicate InUse(w: World, t: Token) {
    t in w.handles && w.handles[t].acquired && !w.handles[t].released
  }

  /** Until it releases, the client attempts a renewal at most one interval plus `delay` after its last attempt. */
  ghost predicate Punctual(ttl: real, start: World, actions: seq<Action>, t: Token, delay: real) {
    forall n :: 0 <= n <= |actions| ==>
      var w, last := Run(ttl, start, actions[..n]), LastAttempt(ttl, start, actions[..n], t);
      InUse(w, t) && last.Some? ==> w.server.now < last.value + RenewalInterval(ttl) + delay
  }

  /** A renewal of a holder sets its lease anew, and nothing else does. */
  lemma AttemptSetsLease(ttl: real, start: World, actions: seq<Action>, a: Action, t: Token)
    requires Initial(start) && InUse(Apply(ttl, Run(ttl, start, actions), a), t)
    requires InUse(Run(ttl, start, actions), t) ==> Holds(Run(ttl, start, actions), t)
    ensures var w := Run(ttl, start, actions); var w' := Apply(ttl, w, a);
      if Attempts(w, a, t) then w'.handles[t].lease == w.server.now + ttl
      else InUse(w, t) && w'.handles[t].lease == w.handles[t].lease
  {
    if InUse(Run(ttl, start, actions), t) { HolderIsNotDisturbed(ttl, start, actions, t); }
  }

  /** The lease of a punctual holder always ends a time to live after its last attempt: no attempt fails. */
  lemma {:induction false} LeaseIsLastAttempt(ttl: real, start: World, actions: seq<Action>, t: Token, delay: real,
      n: nat)
    requires Initial(start) && Punctual(ttl, start, actions, t, delay) && n <= |actions|
    requires RenewalInterval(ttl) + delay <= ttl && InUse(Run(ttl, start, actions[..n]), t)
    ensures var w, last := Run(ttl, start, actions[..n]), LastAttempt(ttl, start, actions[..n], t);
      last.Some? && w.handles[t].lease == last.value + ttl && Holds(w, t)
  {
    if n > 0 {
      assert actions[..n][..n - 1] == actions[..n - 1];
      if InUse(Run(ttl, start, actions[..n - 1]), t) { LeaseIsLastAttempt(ttl, start, actions, t, delay, n - 1); }
      AttemptSetsLease(ttl, start, actions[..n - 1], actions[n - 1], t);
    }
  }

  /** A punctual holder keeps the lock from acquisition to release, in every interleaving. */
  lemma PunctualHolderIsNeverDisplaced(ttl: real, start: World, actions: seq<Action>, t: Token, delay: real, n: nat)
    requires Initial(start) && Punctual(ttl, start, actions, t, delay) && n <= |actions|
    requires RenewalInterval(ttl) + delay <= ttl
    ensures var w := Run(ttl, start, actions[..n]);
      InUse(w, t) ==> Value(w.server, w.handles[t].key) == Some(t)
  {
    if InUse(Run(ttl, start, actions[..n]), t) {
      LeaseIsLastAttempt(ttl, start, actions, t, delay, n);
      AtMostOneHolder(ttl, start, actions[..n], t, t);
    }
  }

  /** With a time to live of three milliseconds or more, two thirds of it are left for the delay;
      below that the one-millisecond floor eats into the margin. */
  lemma RenewalMargin(ttl: real, delay: real)
    ensures ttl >= 3.0 ==> (RenewalInterval(ttl) + delay <= ttl <==> delay <= ttl * 2.0 / 3.0)
    ensures ttl < 3.0 ==> (RenewalInterval(ttl) + delay <= ttl <==> delay <= ttl - 1.0)
  {
  }

  /** The bound is sharp: once the lease is over, any newcomer gets the key. */
  lemma LateHolderCanBeDisplaced(ttl: real, start: World, actions: seq<Action>, t: Token, u: Token)
    requires Initial(start) && ttl > 0.0
    requires var w := Run(ttl, start, actions);
      t in w.handles && u !in w.handles && w.handles[t].acquired && w.handles[t].lease <= w.server.now
      && (w.handles[t].key in w.server.locks ==> w.server.locks[w.handles[t].key].token == t)
    ensures var w := Run(ttl, start, actions);
      Holds(Apply(ttl, w, Acquire(w.handles[t].key, u)), u)
  {
    RunKeeps(ttl, start, actions);
    var w := Run(ttl, start, actions);
    if w.handles[t].key in w.server.locks { assert LockOwned(w, w.handles[t].key); }
  }
}
