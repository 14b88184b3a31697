/** InMemoryTaskEventBroker: bounded per-task history, bounded drop-oldest subscriber
    queues, and replay after a known event. */
module EventBroker {
  import opened Options

  datatype Event = Event(eventId: string, taskId: string, payload: string, sequence: nat)

  /** A subscription is named by its task and its subscription id. */
  datatype Key = Key(task: string, sub: string)

  datatype State = State(histories: map<string, seq<Event>>, queues: map<Key, seq<Event>>)

  datatype Limits = Limits(history: nat, queue: nat)

  // ----- bounded sequences

  /** What a deque of bounded length keeps. */
  function Recent<T>(s: seq<T>, n: nat): seq<T> {
    if |s| <= n then s else s[|s| - n..]
  }

  /** put_nowait, or drop the oldest and put; size 0 means unbounded. */
  function Offer(size: nat, queue: seq<Event>, e: Event): seq<Event> {
    if size == 0 || |queue| < size then queue + [e] else queue[1..] + [e]
  }

  function OfferAll(size: nat, queue: seq<Event>, es: seq<Event>): seq<Event> {
    if es == [] then queue else Offer(size, OfferAll(size, queue, es[..|es| - 1]), es[|es| - 1])
  }

  lemma RecentSnoc<T>(s: seq<T>, n: nat, x: T)
    ensures Recent(Recent(s, n) + [x], n) == Recent(s + [x], n)
  {
  }

  /** Offering a whole list keeps its most recent events, or all of them when the queue is unbounded. */
  lemma {:induction false} OfferAllKeepsRecent(size: nat, es: seq<Event>)
    ensures OfferAll(size, [], es) == if size == 0 then es else Recent(es, size)
  {
    if es != [] {
      var init := es[..|es| - 1];
      OfferAllKeepsRecent(size, init);
      assert es == init + [es[|es| - 1]];
    }
  }

  // ----- operations as functions of the state

  function History(s: State, t: string): seq<Event> {
    if t in s.histories then s.histories[t] else []
  }

  function LatestSequence(s: State, t: string): nat {
    var h := History(s, t);
    if h == [] then 0 else h[|h| - 1].sequence
  }

  function IndexOfEvent(h: seq<Event>, id: string): (i: nat)
    ensures i <= |h| && (i < |h| ==> h[i].eventId == id) && forall j :: 0 <= j < i ==> h[j].eventId != id
  {
    if h == [] || h[0].eventId == id then 0 else 1 + IndexOfEvent(h[1..], id)
  }

  function Behind(h: seq<Event>, id: string): seq<Event> {
    var i := IndexOfEvent(h, id);
    if i == |h| then h else h[i + 1..]
  }

  /** history(task, after): everything behind the named event, or all of it when the event is not retained. */
  function HistoryAfter(s: State, t: string, after: Option<string>): seq<Event> {
    var h := History(s, t);
    match after
    case None => h
    case Some(id) => Behind(h, id)
  }

  function Published(s: State, e: Event): Event {
    e.(sequence := LatestSequence(s, e.taskId) + 1)
  }

  function OfferToTask(size: nat, queues: map<Key, seq<Event>>, e: Event): map<Key, seq<Event>> {
    map k | k in queues :: if k.task == e.taskId then Offer(size, queues[k], e) else queues[k]
  }

  function AfterPublish(l: Limits, s: State, e: Event): State {
    var p := Published(s, e);
    State(s.histories[e.taskId := Recent(History(s, e.taskId) + [p], l.history)], OfferToTask(l.queue, s.queues, p))
  }

  function AfterSubscribe(l: Limits, s: State, k: Key, after: Option<string>): State {
    s.(queues := s.queues[k := OfferAll(l.queue, [], HistoryAfter(s, k.task, after))])
  }

  function AfterRead(s: State, k: Key): State {
    if k in s.queues && s.queues[k] != [] then s.(queues := s.queues[k := s.queues[k][1..]]) else s
  }

  function AfterUnsubscribe(s: State, k: Key): State {
    s.(queues := s.queues - {k})
  }

  // ----- the class

  class Broker {
    const limits: Limits
    var histories: map<string, seq<Event>>
    var queues: map<Key, seq<Event>>

    ghost function Abstract(): State
      reads this
    {
      State(histories, queues)
    }

    constructor (limits: Limits)
      ensures this.limits == limits && Abstract() == State(map[], map[])
    {
      this.limits := limits;
      histories, queues := map[], map[];
    }

    method Publish(e: Event) returns (published: Event)
      modifies this
      ensures published == Published(old(Abstract()), e)
      ensures Abstract() == AfterPublish(limits, old(Abstract()), e)
      ensures published == e.(sequence := published.sequence)
      ensures forall t :: t != e.taskId ==>
                (t in histories <==> t in old(histories)) && (t in histories ==> histories[t] == old(histories)[t])
      ensures queues.Keys == old(queues).Keys
      ensures forall k :: k in queues && k.task != e.taskId ==> queues[k] == old(queues)[k]
    {
      var h := if e.taskId in histories then histories[e.taskId] else [];
      var sequence := (if h != [] then h[|h| - 1].sequence else 0) + 1;
      published := e.(sequence := sequence);
      h := h + [published];
      if |h| > limits.history {
        h := h[|h| - limits.history..];
      }
      histories := histories[e.taskId := h];
      OfferToSubscribers(published);
    }

    method OfferToSubscribers(e: Event)
      modifies this`queues
      ensures queues == OfferToTask(limits.queue, old(queues), e)
    {
      var before := queues;
      var todo := set k | k in queues && k.task == e.taskId;
      while todo != {}
        invariant todo <= before.Keys && queues.Keys == before.Keys
        invariant forall k :: k in todo ==> k.task == e.taskId && queues[k] == before[k]
        invariant forall k :: k in before && k !in todo ==>
                    queues[k] == if k.task == e.taskId then Offer(limits.queue, before[k], e) else before[k]
        decreases |todo|
      {
        var k :| k in todo;
        queues := queues[k := Offer(limits.queue, queues[k], e)];
        todo := todo - {k};
      }
    }

    method ReadHistory(t: string, after: Option<string>) returns (events: seq<Event>)
      ensures events == HistoryAfter(Abstract(), t, after)
    {
      var h := if t in histories then histories[t] else [];
      if after.None? {
        return h;
      }
      for index := 0 to |h|
        invariant forall j :: 0 <= j < index ==> h[j].eventId != after.value
      {
        if h[index].eventId == after.value {
          return h[index + 1..];
        }
      }
      return h;
    }

    method Subscribe(k: Key, after: Option<string>)
      modifies this
      ensures Abstract() == AfterSubscribe(limits, old(Abstract()), k, after)
      ensures k in queues && histories == old(histories)
      ensures forall j :: j in old(queues) && j != k ==> j in queues && queues[j] == old(queues)[j]
    {
      var events := ReadHistory(k.task, after);
      var queue: seq<Event> := [];
      for i := 0 to |events|
        invariant queue == OfferAll(limits.queue, [], events[..i])
      {
        queue := Offer(limits.queue, queue, events[i]);
        assert events[..i + 1][..i] == events[..i];
      }
      assert events[..|events|] == events;
      queues := queues[k := queue];
    }

    /** Takes the oldest waiting event, if any. */
    method Read(k: Key) returns (e: Option<Event>)
      modifies this
      ensures Abstract() == AfterRead(old(Abstract()), k)
      ensures e == if k in old(queues) && old(queues)[k] != [] then Some(old(queues)[k][0]) else None
      ensures e.Some? ==> k in old(queues) && old(queues)[k] != [] && queues == old(queues)[k := old(queues)[k][1..]]
      ensures histories == old(histories) && (e.None? ==> queues == old(queues))
    {
      e := None;
      if k in queues && queues[k] != [] {
        e := Some(queues[k][0]);
        queues := queues[k := queues[k][1..]];
      }
    }

    method Unsubscribe(k: Key)
      modifies this
      ensures Abstract() == AfterUnsubscribe(old(Abstract()), k)
      ensures k !in queues && histories == old(histories)
      ensures forall j :: j != k ==>
                (j in queues <==> j in old(queues)) && (j in queues ==> queues[j] == old(queues)[j])
    {
      queues := queues - {k};
    }
  }

  // ----- runs

  /** What a subscriber has been through, in positions of the task's full log:
      where its replay began, what it read, and what overflow dropped. */
  datatype View = View(from: nat, seen: seq<nat>, lost: set<nat>)

  /** The broker together with everything ever published and every subscriber's past. */
  datatype World = World(state: State, log: map<string, seq<Event>>, views: map<Key, View>)

  datatype Action =
    | Publishing(e: Event)
    | Subscribing(k: Key, after: Option<string>)
    | Reading(k: Key)
    | Leaving(k: Key)

  function Log(w: World, t: string): seq<Event> {
    if t in w.log then w.log[t] else []
  }

  ghost predicate FreshId(w: World, e: Event) {
    forall i :: 0 <= i < |Log(w, e.taskId)| ==> Log(w, e.taskId)[i].eventId != e.eventId
  }

  /** The position of the first event still waiting in a queue. */
  function Front(w: World, k: Key): int {
    |Log(w, k.task)| - (if k in w.state.queues then |w.state.queues[k]| else 0)
  }

  /** Overflow: the queue is full, so its front event is dropped. */
  function AfterOverflow(l: Limits, w: World, k: Key, v: View): View {
    if k in w.state.queues && l.queue != 0 && |w.state.queues[k]| >= l.queue
    then v.(lost := v.lost + {if Front(w, k) >= 0 then Front(w, k) else 0}) else v
  }

  function Interval(a: nat, b: int): (r: set<nat>)
    ensures forall p :: p in r <==> a <= p < b
    decreases b - a
  {
    if a >= b then {} else Interval(a, b - 1) + {b - 1}
  }

  predicate FitsIn(l: Limits, n: nat) {
    l.queue == 0 || n <= l.queue
  }

  function AfterReplay(l: Limits, w: World, k: Key, after: Option<string>): View {
    var n, replay := |Log(w, k.task)|, |HistoryAfter(w.state, k.task, after)|;
    var from := if n >= replay then n - replay else 0;
    View(from, [], Interval(from, n - if FitsIn(l, replay) then replay else l.queue))
  }

  /** One operation. Event ids and subscription ids are fresh, as uuid4 makes them. */
  ghost function Apply(l: Limits, w: World, a: Action): World {
    match a
    case Publishing(e) =>
      if !FreshId(w, e) then w
      else
        var p := Published(w.state, e);
        World(AfterPublish(l, w.state, e), w.log[e.taskId := Log(w, e.taskId) + [p]],
              map k | k in w.views :: if k.task == e.taskId then AfterOverflow(l, w, k, w.views[k]) else w.views[k])
    case Subscribing(k, after) =>
      if k in w.views then w
      else World(AfterSubscribe(l, w.state, k, after), w.log, w.views[k := AfterReplay(l, w, k, after)])
    case Reading(k) =>
      if k in w.views && k in w.state.queues && w.state.queues[k] != [] && Front(w, k) >= 0
      then World(AfterRead(w.state, k), w.log, w.views[k := w.views[k].(seen := w.views[k].seen + [Front(w, k)])])
      else w
    case Leaving(k) => w.(state := AfterUnsubscribe(w.state, k))
  }

  ghost function Run(l: Limits, actions: seq<Action>): World {
    if actions == [] then World(State(map[], map[]), map[], map[])
    else Apply(l, Run(l, actions[..|actions| - 1]), actions[|actions| - 1])
  }

  // ----- the invariant

  ghost predicate LogOk(log: seq<Event>) {
    && (forall i :: 0 <= i < |log| ==> log[i].sequence == i + 1)
    && (forall i, j :: 0 <= i < j < |log| ==> log[i].eventId != log[j].eventId)
  }

  ghost predicate TaskOk(l: Limits, w: World, t: string) {
    LogOk(Log(w, t)) && History(w.state, t) == Recent(Log(w, t), l.history)
  }

  /** A queue is the end of the log, no longer than its bound if it has one. */
  ghost predicate QueueOk(l: Limits, log: seq<Event>, queue: seq<Event>) {
    FitsIn(l, |queue|) && |queue| <= |log| && queue == log[|log| - |queue|..]
  }

  ghost predicate Increasing(s: seq<nat>) {
    forall i, j :: 0 <= i < j < |s| ==> s[i] < s[j]
  }

  /** Every position from the start of the replay up to `front` was read or lost, never both. */
  ghost predicate ViewOk(v: View, front: int) {
    && Increasing(v.seen) && v.from <= front
    && forall p :: (p in v.seen || p in v.lost <==> v.from <= p < front) && !(p in v.seen && p in v.lost)
  }

  ghost predicate SubOk(l: Limits, w: World, k: Key) {
    k in w.state.queues ==>
      k in w.views && QueueOk(l, Log(w, k.task), w.state.queues[k]) && ViewOk(w.views[k], Front(w, k))
  }

  ghost predicate Inv(l: Limits, w: World) {
    (forall t :: TaskOk(l, w, t)) && (forall k :: SubOk(l, w, k))
  }

  lemma LatestIsLogLength(l: Limits, w: World, t: string)
    requires l.history >= 1 && TaskOk(l, w, t)
    ensures LatestSequence(w.state, t) == |Log(w, t)|
  {
  }

  lemma LogSnoc(log: seq<Event>, e: Event)
    requires LogOk(log) && e.sequence == |log| + 1 && forall i :: 0 <= i < |log| ==> log[i].eventId != e.eventId
    ensures LogOk(log + [e])
  {
  }

  lemma PublishKeepsTask(l: Limits, w: World, e: Event, t: string)
    requires l.history >= 1 && TaskOk(l, w, t) && TaskOk(l, w, e.taskId) && FreshId(w, e)
    ensures TaskOk(l, Apply(l, w, Publishing(e)), t)
  {
    if t == e.taskId {
      LatestIsLogLength(l, w, t);
      RecentSnoc(Log(w, t), l.history, Published(w.state, e));
      LogSnoc(Log(w, t), Published(w.state, e));
    }
  }

  lemma PublishKeepsQueue(l: Limits, log: seq<Event>, queue: seq<Event>, e: Event)
    requires QueueOk(l, log, queue)
    ensures QueueOk(l, log + [e], Offer(l.queue, queue, e))
  {
  }

  lemma SeeFront(v: View, front: nat)
    requires ViewOk(v, front)
    ensures ViewOk(v.(seen := v.seen + [front]), front + 1)
  {
    var seen := v.seen + [front];
    forall i, j | 0 <= i < j < |seen| ensures seen[i] < seen[j] {
      assert v.seen[i] in v.seen;
    }
    assert forall p :: p in seen <==> p in v.seen || p == front;
  }

  lemma PublishKeepsSub(l: Limits, w: World, e: Event, k: Key)
    requires SubOk(l, w, k) && FreshId(w, e)
    ensures SubOk(l, Apply(l, w, Publishing(e)), k)
  {
    if k in w.state.queues && k.task == e.taskId {
      PublishKeepsQueue(l, Log(w, k.task), w.state.queues[k], Published(w.state, e));
      PublishKeepsView(l, w, e, k);
    }
  }

  lemma PublishKeepsView(l: Limits, w: World, e: Event, k: Key)
    requires SubOk(l, w, k) && FreshId(w, e) && k in w.state.queues && k.task == e.taskId
    ensures ViewOk(Apply(l, w, Publishing(e)).views[k], Front(Apply(l, w, Publishing(e)), k))
  {
  }

  lemma ReplayIsRecent(l: Limits, w: World, t: string, after: Option<string>)
    requires TaskOk(l, w, t)
    ensures |HistoryAfter(w.state, t, after)| <= |Log(w, t)|
    ensures HistoryAfter(w.state, t, after) == Log(w, t)[|Log(w, t)| - |HistoryAfter(w.state, t, after)|..]
  {
  }

  lemma ReplayQueueOk(l: Limits, log: seq<Event>, replay: seq<Event>)
    requires |replay| <= |log| && replay == log[|log| - |replay|..]
    ensures QueueOk(l, log, OfferAll(l.queue, [], replay))
    ensures |OfferAll(l.queue, [], replay)| == if FitsIn(l, |replay|) then |replay| else l.queue
  {
    OfferAllKeepsRecent(l.queue, replay);
  }

  lemma SubscribeKeepsSub(l: Limits, w: World, k: Key, after: Option<string>)
    requires TaskOk(l, w, k.task) && k !in w.views
    ensures SubOk(l, Apply(l, w, Subscribing(k, after)), k)
  {
    var replay, w' := HistoryAfter(w.state, k.task, after), Apply(l, w, Subscribing(k, after));
    ReplayIsRecent(l, w, k.task, after);
    ReplayQueueOk(l, Log(w, k.task), replay);
    assert w'.state.queues[k] == OfferAll(l.queue, [], replay);
    FreshViewOk(|Log(w, k.task)| - |replay|, Front(w', k));
  }

  lemma FreshViewOk(from: nat, front: int)
    requires from <= front
    ensures ViewOk(View(from, [], Interval(from, front)), front)
  {
  }

  lemma ReadKeepsSub(l: Limits, w: World, k: Key)
    requires SubOk(l, w, k) && k in w.state.queues && w.state.queues[k] != []
    ensures SubOk(l, Apply(l, w, Reading(k)), k)
  {
    SeeFront(w.views[k], Front(w, k));
  }

  lemma ApplyKeepsTask(l: Limits, w: World, a: Action, t: string)
    requires l.history >= 1 && TaskOk(l, w, t) && (a.Publishing? ==> TaskOk(l, w, a.e.taskId))
    ensures TaskOk(l, Apply(l, w, a), t)
  {
    if a.Publishing? && FreshId(w, a.e) { PublishKeepsTask(l, w, a.e, t); }
  }

  lemma ApplyKeepsSub(l: Limits, w: World, a: Action, k: Key)
    requires SubOk(l, w, k) && TaskOk(l, w, k.task)
    ensures SubOk(l, Apply(l, w, a), k)
  {
    match a
    case Publishing(e) => if FreshId(w, e) { PublishKeepsSub(l, w, e, k); }
    case Subscribing(k', after) => if k == k' && k !in w.views { SubscribeKeepsSub(l, w, k, after); }
    case Reading(k') => if k == k' && k in w.state.queues && w.state.queues[k] != [] { ReadKeepsSub(l, w, k); }
    case Leaving(_) =>
  }

  lemma ApplyKeeps(l: Limits, w: World, a: Action)
    requires l.history >= 1 && Inv(l, w)
    ensures Inv(l, Apply(l, w, a))
  {
    forall t ensures TaskOk(l, Apply(l, w, a), t) { ApplyKeepsTask(l, w, a, t); }
    forall k ensures SubOk(l, Apply(l, w, a), k) { ApplyKeepsSub(l, w, a, k); }
  }

  lemma {:induction false} RunKeeps(l: Limits, actions: seq<Action>)
    requires l.history >= 1
    ensures Inv(l, Run(l, actions))
  {
    if actions == [] {
      forall t ensures TaskOk(l, Run(l, []), t) {}
    } else {
      RunKeeps(l, actions[..|actions| - 1]);
      ApplyKeeps(l, Run(l, actions[..|actions| - 1]), actions[|actions| - 1]);
    }
  }

  // ----- what every run promises

  /** A task's history is the last events published, numbered consecutively up to the publish count. */
  lemma HistoryIsTheRecentLog(l: Limits, actions: seq<Action>, t: string)
    requires l.history >= 1
    ensures var w := Run(l, actions); var log, h := Log(w, t), History(w.state, t);
      && h == Recent(log, l.history) && |h| == (if |log| <= l.history then |log| else l.history)
      && (forall i :: 0 <= i < |h| ==> h[i].sequence == |log| - |h| + i + 1)
      && LatestSequence(w.state, t) == |log|
  {
    RunKeeps(l, actions);
    var w := Run(l, actions);
    assert TaskOk(l, w, t);
    LatestIsLogLength(l, w, t);
  }

  /** In all runs the latest number is the publish count exactly when the broker retains any history at all. */
  lemma NumberingNeedsHistory(l: Limits)
    ensures (forall actions, t :: LatestSequence(Run(l, actions).state, t) == |Log(Run(l, actions), t)|) <==>
            l.history >= 1
  {
    if l.history >= 1 {
      forall actions, t ensures LatestSequence(Run(l, actions).state, t) == |Log(Run(l, actions), t)| {
        HistoryIsTheRecentLog(l, actions, t);
      }
    } else {
      var e := Event("e", "t", "", 0);
      var none: seq<Action> := [];
      assert Run(l, none + [Publishing(e)]) == Apply(l, Run(l, none), Publishing(e));
      assert Log(Run(l, none + [Publishing(e)]), "t") == [Published(Run(l, none).state, e)];
    }
  }

  /** Replay after any event ever published gives exactly the retained events behind it,
      whether or not that event is still retained. */
  lemma ReplayIsEverythingBehind(l: Limits, actions: seq<Action>, t: string, k: nat)
    requires l.history >= 1 && k < |Log(Run(l, actions), t)|
    ensures var w := Run(l, actions); var log, h := Log(w, t), History(w.state, t);
      var replay, cut := HistoryAfter(w.state, t, Some(log[k].eventId)), |log| - |h|;
      && cut >= 0 && replay == log[if k + 1 >= cut then k + 1 else cut..]
      && (forall e :: e in replay <==> e in h && e.sequence > log[k].sequence)
  {
    RunKeeps(l, actions);
    var w := Run(l, actions);
    var log, h := Log(w, t), History(w.state, t);
    assert TaskOk(l, w, t);
    var cut := |log| - |h|;
    assert h == log[cut..];
    BehindInLog(log, cut, k);
    LaterMembers(log, cut, if k + 1 >= cut then k + 1 else cut, k);
  }

  lemma BehindInLog(log: seq<Event>, cut: nat, k: nat)
    requires LogOk(log) && cut <= |log| && k < |log|
    ensures Behind(log[cut..], log[k].eventId) == log[if k + 1 >= cut then k + 1 else cut..]
  {
  }

  lemma LaterMembers(log: seq<Event>, cut: nat, m: nat, k: nat)
    requires LogOk(log) && k < |log| && cut <= m <= |log| && m == if k + 1 >= cut then k + 1 else cut
    ensures forall e :: e in log[m..] <==> e in log[cut..] && e.sequence > log[k].sequence
  {
  }

  /** A subscriber's queue is a consecutive run of events ending at the latest one. */
  lemma QueueIsARunToTheLatest(l: Limits, actions: seq<Action>, k: Key)
    requires l.history >= 1 && k in Run(l, actions).state.queues
    ensures var w := Run(l, actions); var queue := w.state.queues[k];
      && FitsIn(l, |queue|)
      && (forall i :: 0 <= i < |queue| ==> queue[i].sequence == LatestSequence(w.state, k.task) - |queue| + i + 1)
  {
    RunKeeps(l, actions);
    var w := Run(l, actions);
    assert SubOk(l, w, k) && TaskOk(l, w, k.task);
    LatestIsLogLength(l, w, k.task);
  }

  /** A reader sees strictly increasing sequence numbers, and misses a number only because its queue overflowed:
      every position from the start of its replay is read, lost to overflow, or still queued, and just one of these. */
  lemma ReaderMissesOnlyOverflow(l: Limits, actions: seq<Action>, k: Key, p: nat)
    requires l.history >= 1 && k in Run(l, actions).state.queues
    ensures var w := Run(l, actions);
      && k in w.views && Increasing(w.views[k].seen)
      && var read, dropped, waiting := p in w.views[k].seen, p in w.views[k].lost, Front(w, k) <= p < |Log(w, k.task)|;
      && (w.views[k].from <= p < |Log(w, k.task)| ==> read || dropped || waiting)
      && !(read && dropped) && !(read && waiting) && !(dropped && waiting)
  {
    RunKeeps(l, actions);
    assert SubOk(l, Run(l, actions), k);
  }
}
