/** The timer queue on its loop thread: an ordered set of pending timers, batches of
    expired ones, and cancellations that may arrive from inside their callbacks. */
module TimerSpec {
  import opened Common

  /** Timers are identified by their address; addresses are not reused here. */
  type Id = nat
  datatype Timer = Timer(expiration: int, repeat: bool, interval: nat)
  datatype Entry = Entry(expiration: int, id: Id)

  /** `memory` holds every timer ever allocated. `waiting` are those whose add task has
      not run yet. `freed` counts deletions, `started` logs callbacks as they start,
      `armed` is the last value given to the timer descriptor. */
  datatype Queue = Queue(timers: seq<Entry>, memory: map<Id, Timer>, waiting: set<Id>, pending: set<Id>,
                         canceling: set<Id>, calling: bool, armed: Option<int>, freed: multiset<Id>,
                         started: seq<Id>, nextId: Id)

  const NEW := Queue([], map[], {}, {}, {}, false, None, multiset{}, [], 0)

  // ---- the ordered set ----

  predicate Before(a: Entry, b: Entry) {
    a.expiration < b.expiration || (a.expiration == b.expiration && a.id < b.id)
  }

  ghost predicate Ordered(ts: seq<Entry>) {
    forall i, j | 0 <= i < j < |ts| :: Before(ts[i], ts[j])
  }

  function Inserted(ts: seq<Entry>, e: Entry): seq<Entry> {
    if ts == [] then [e]
    else if ts[0] == e then ts
    else if Before(e, ts[0]) then [e] + ts
    else [ts[0]] + Inserted(ts[1..], e)
  }

  function Erased(ts: seq<Entry>, e: Entry): seq<Entry> {
    if ts == [] then []
    else if ts[0] == e then Erased(ts[1..], e)
    else [ts[0]] + Erased(ts[1..], e)
  }

  /** How many leading entries have expired by `when`. */
  function ExpiredCount(ts: seq<Entry>, when: int): (k: nat)
    ensures k <= |ts|
  {
    if ts == [] || ts[0].expiration > when then 0 else 1 + ExpiredCount(ts[1..], when)
  }

  function Ids(ts: seq<Entry>): (ids: seq<Id>)
    ensures |ids| == |ts| && forall i | 0 <= i < |ts| :: ids[i] == ts[i].id
  {
    seq(|ts|, i requires 0 <= i < |ts| => ts[i].id)
  }

  // ---- operations ----

  function Rearmed(q: Queue): Queue {
    if q.timers == [] then q else q.(armed := Some(q.timers[0].expiration))
  }

  /** `insert`: re-arms only when the new timer is earlier than all others. */
  function Insert(q: Queue, id: Id): Queue
    requires id in q.memory
  {
    var when := q.memory[id].expiration;
    var earliest := q.timers == [] || when < q.timers[0].expiration;
    var q' := q.(timers := Inserted(q.timers, Entry(when, id)));
    if earliest then q'.(armed := Some(when)) else q'
  }

  function Allocate(q: Queue, t: Timer): Queue {
    q.(memory := q.memory[q.nextId := t], waiting := q.waiting + {q.nextId}, nextId := q.nextId + 1)
  }

  /** `add_timer_in_loop`. */
  function Add(q: Queue, id: Id): Queue
    requires id in q.memory
  {
    var q' := q.(waiting := q.waiting - {id});
    if id in q.pending then q'.(pending := q.pending - {id}, freed := q.freed + multiset{id})
    else Insert(q', id)
  }

  /** `cancel_in_loop`. */
  function Cancel(q: Queue, id: Id): Queue
    requires id in q.memory
  {
    var e := Entry(q.memory[id].expiration, id);
    if e !in q.timers then
      if q.calling then q.(canceling := q.canceling + {id}) else q.(pending := q.pending + {id})
    else
      var q' := q.(timers := Erased(q.timers, e));
      if q.calling then q'.(canceling := q.canceling + {id})
      else
        var q'' := q'.(freed := q.freed + multiset{id});
        if e == q.timers[0] then Rearmed(q'') else q''
  }

  /** What a timer callback may do to the queue. */
  datatype Act = Create(timer: Timer) | CancelTimer(id: Id)

  function RunAct(q: Queue, a: Act): Queue {
    match a
    case Create(t) => Add(Allocate(q, t), q.nextId)
    case CancelTimer(id) => if id in q.memory then Cancel(q, id) else q
  }

  function RunActs(q: Queue, acts: seq<Act>): Queue
    decreases |acts|
  {
    if acts == [] then q else RunActs(RunAct(q, acts[0]), acts[1..])
  }

  /** After its callback an expired timer is re-inserted if it repeats and is not
      canceled, and deleted otherwise. */
  function AfterRun(q: Queue, id: Id, now: int): Queue {
    if id in q.memory && q.memory[id].repeat && id !in q.canceling
    then Insert(q.(memory := q.memory[id := q.memory[id].(expiration := now + q.memory[id].interval)]), id)
    else q.(freed := q.freed + multiset{id})
  }

  /** One expired timer: run it unless canceled, then re-insert or delete it. */
  function RunTimer(q: Queue, id: Id, now: int, acts: seq<Act>): Queue {
    AfterRun(if id in q.canceling then q else RunActs(q.(started := q.started + [id]), acts), id, now)
  }

  /** `scripts[k]` is what the callback of the `k`-th expired timer does. */
  function RunBatch(q: Queue, batch: seq<Id>, now: int, scripts: seq<seq<Act>>): Queue
    requires |scripts| == |batch|
    decreases |batch|
  {
    if batch == [] then q
    else RunBatch(RunTimer(q, batch[0], now, scripts[0]), batch[1..], now, scripts[1..])
  }

  function Purged(ts: seq<Entry>, memory: map<Id, Timer>, gone: set<Id>): seq<Entry> {
    if ts == [] then []
    else
      var rest := Purged(ts[1..], memory, gone);
      if ts[0].id in gone && ts[0].id in memory && memory[ts[0].id].expiration == ts[0].expiration then rest
      else [ts[0]] + rest
  }

  /** After the batch: drop and delete what was canceled meanwhile, then re-arm. */
  function Finish(q: Queue): Queue {
    Rearmed(q.(calling := false, timers := Purged(q.timers, q.memory, q.canceling),
               freed := q.freed + multiset(q.canceling), canceling := {}))
  }

  function Begin(q: Queue, now: int): Queue {
    q.(timers := q.timers[ExpiredCount(q.timers, now)..], calling := true)
  }

  function Batch(q: Queue, now: int): seq<Id> {
    Ids(q.timers[..ExpiredCount(q.timers, now)])
  }

  /** `handle_read`. */
  function Expire(q: Queue, now: int, scripts: seq<seq<Act>>): Queue
    requires |scripts| == |Batch(q, now)|
  {
    Finish(RunBatch(Begin(q, now), Batch(q, now), now, scripts))
  }

  // ---- events between polls ----

  datatype Event =
    | Allocated(timer: Timer)
    | AddTask(id: Id)
    | Call(act: Act)
    | Expired(now: int, scripts: seq<seq<Act>>)

  /** Add tasks run once, for timers whose add is still queued; cancels name timers that
      are allocated and not freed; one script per expired timer. */
  ghost predicate LegalAct(q: Queue, a: Act) {
    a.CancelTimer? ==> a.id in q.memory && q.freed[a.id] == 0
  }

  ghost predicate LegalActs(q: Queue, acts: seq<Act>)
    decreases |acts|
  {
    acts != [] ==> LegalAct(q, acts[0]) && LegalActs(RunAct(q, acts[0]), acts[1..])
  }

  ghost predicate LegalBatch(q: Queue, batch: seq<Id>, now: int, scripts: seq<seq<Act>>)
    requires |scripts| == |batch|
    decreases |batch|
  {
    batch != [] ==>
      && (batch[0] !in q.canceling ==> LegalActs(q.(started := q.started + [batch[0]]), scripts[0]))
      && LegalBatch(RunTimer(q, batch[0], now, scripts[0]), batch[1..], now, scripts[1..])
  }

  ghost predicate Legal(q: Queue, e: Event) {
    match e
    case Allocated(_) => true
    case AddTask(id) => id in q.waiting && id in q.memory
    case Call(a) => LegalAct(q, a)
    case Expired(now, scripts) => |scripts| == |Batch(q, now)| && LegalBatch(Begin(q, now), Batch(q, now), now, scripts)
  }

  function Step(q: Queue, e: Event): Queue
    requires Legal(q, e)
  {
    match e
    case Allocated(t) => Allocate(q, t)
    case AddTask(id) => Add(q, id)
    case Call(a) => RunAct(q, a)
    case Expired(now, scripts) => Expire(q, now, scripts)
  }

  /** The destructor deletes what the set, the pending cancels and the cancel list hold. */
  function Destroyed(q: Queue): Queue {
    q.(timers := [], pending := {}, canceling := {},
       freed := q.freed + multiset(Ids(q.timers)) + multiset(q.pending) + multiset(q.canceling))
  }

  // ---- runs ----

  datatype Trace = Trace(events: seq<Event>, states: seq<Queue>)

  ghost predicate Link(t: Trace, n: nat)
    requires n < |t.events| == |t.states| - 1
  {
    Legal(t.states[n], t.events[n]) && Step(t.states[n], t.events[n]) == t.states[n + 1]
  }

  ghost predicate IsRun(t: Trace) {
    && |t.events| == |t.states| - 1
    && t.states[0] == NEW
    && forall n: nat {:trigger Link(t, n)} :: n < |t.events| ==> Link(t, n)
  }
}
