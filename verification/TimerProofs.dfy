/** Ordering, arming, cancellation and ownership of timers over every run. */
module TimerProofs {
  import opened Common
  import opened TimerSpec

  // ---- the ordered set ----

  lemma {:induction false} InsertedIs(ts: seq<Entry>, e: Entry)
    requires Ordered(ts)
    ensures Ordered(Inserted(ts, e))
    ensures forall x :: x in Inserted(ts, e) <==> x == e || x in ts
    ensures Inserted(ts, e)[0] == if ts == [] || Before(e, ts[0]) then e else ts[0]
    decreases |ts|
  {
    if ts != [] && ts[0] != e && !Before(e, ts[0]) {
      InsertedIs(ts[1..], e);
      assert ts == [ts[0]] + ts[1..];
      var r := Inserted(ts[1..], e);
      forall j | 0 <= j < |r| ensures Before(ts[0], r[j]) {
        assert r[j] in r;
      }
    } else if ts != [] && ts[0] != e {
      forall j | 0 <= j < |ts| ensures Before(e, ts[j]) { }
    }
  }

  lemma {:induction false} ErasedIs(ts: seq<Entry>, e: Entry)
    requires Ordered(ts)
    ensures Ordered(Erased(ts, e))
    ensures forall x :: x in Erased(ts, e) <==> x != e && x in ts
    ensures Erased(ts, e) != [] && ts[0] != e ==> Erased(ts, e)[0] == ts[0]
    decreases |ts|
  {
    if ts != [] {
      ErasedIs(ts[1..], e);
      assert ts == [ts[0]] + ts[1..];
      if ts[0] != e {
        var r := Erased(ts[1..], e);
        forall j | 0 <= j < |r| ensures Before(ts[0], r[j]) {
          assert r[j] in r;
        }
      }
    }
  }

  /** `get_expired` takes exactly the timers due by `when`, in order, and leaves the later ones. */
  lemma {:induction false} ExpiredExactly(ts: seq<Entry>, when: int)
    requires Ordered(ts)
    ensures forall i | 0 <= i < |ts| :: i < ExpiredCount(ts, when) <==> ts[i].expiration <= when
    decreases |ts|
  {
    if ts != [] {
      ExpiredExactly(ts[1..], when);
      forall i | 0 <= i < |ts| ensures i < ExpiredCount(ts, when) <==> ts[i].expiration <= when {
        if i > 0 { assert ts[1..][i - 1] == ts[i]; }
      }
    }
  }

  lemma {:induction false} PurgedIs(ts: seq<Entry>, memory: map<Id, Timer>, gone: set<Id>)
    requires Ordered(ts)
    ensures Ordered(Purged(ts, memory, gone))
    ensures forall x :: x in Purged(ts, memory, gone) ==> x in ts
    ensures forall x | x in ts && x.id !in gone :: x in Purged(ts, memory, gone)
    ensures (forall x | x in ts :: x.id !in gone) ==> Purged(ts, memory, gone) == ts
    decreases |ts|
  {
    if ts != [] {
      PurgedIs(ts[1..], memory, gone);
      assert ts == [ts[0]] + ts[1..];
      var r := Purged(ts[1..], memory, gone);
      forall j | 0 <= j < |r| ensures Before(ts[0], r[j]) {
        assert r[j] in r;
      }
      if forall x | x in ts :: x.id !in gone {
        assert ts[0] in ts;
        assert forall x | x in ts[1..] :: x in ts;
      }
    }
  }

  // ---- arming ----

  /** Between events: ordered, idle, and the descriptor set to the earliest timer. */
  ghost predicate Idle(q: Queue) {
    && Ordered(q.timers) && !q.calling && q.canceling == {}
    && (q.timers != [] ==> q.armed == Some(q.timers[0].expiration))
  }

  lemma InsertIdle(q: Queue, id: Id)
    requires Ordered(q.timers) && id in q.memory
    ensures Ordered(Insert(q, id).timers)
    ensures Idle(q) ==> Idle(Insert(q, id))
  {
    InsertedIs(q.timers, Entry(q.memory[id].expiration, id));
  }

  lemma CancelIdle(q: Queue, id: Id)
    requires Ordered(q.timers) && id in q.memory
    ensures Ordered(Cancel(q, id).timers)
    ensures Idle(q) ==> Idle(Cancel(q, id))
  {
    ErasedIs(q.timers, Entry(q.memory[id].expiration, id));
  }

  lemma ActIdle(q: Queue, a: Act)
    requires Ordered(q.timers)
    ensures Ordered(RunAct(q, a).timers) && RunAct(q, a).calling == q.calling
    ensures Idle(q) ==> Idle(RunAct(q, a))
  {
    match a
    case Create(t) =>
      var q1 := Allocate(q, t);
      InsertIdle(q1.(waiting := q1.waiting - {q.nextId}), q.nextId);
    case CancelTimer(id) => if id in q.memory { CancelIdle(q, id); }
  }

  lemma {:induction false} ActsOrdered(q: Queue, acts: seq<Act>)
    requires Ordered(q.timers)
    ensures Ordered(RunActs(q, acts).timers)
    decreases |acts|
  {
    if acts != [] {
      ActIdle(q, acts[0]);
      ActsOrdered(RunAct(q, acts[0]), acts[1..]);
    }
  }

  lemma AfterRunOrdered(q: Queue, id: Id, now: int)
    requires Ordered(q.timers)
    ensures Ordered(AfterRun(q, id, now).timers)
  {
    if id in q.memory && q.memory[id].repeat && id !in q.canceling {
      InsertIdle(q.(memory := q.memory[id := q.memory[id].(expiration := now + q.memory[id].interval)]), id);
    }
  }

  lemma TimerOrdered(q: Queue, id: Id, now: int, acts: seq<Act>)
    requires Ordered(q.timers)
    ensures Ordered(RunTimer(q, id, now, acts).timers)
  {
    ActsOrdered(q.(started := q.started + [id]), acts);
    AfterRunOrdered(if id in q.canceling then q else RunActs(q.(started := q.started + [id]), acts), id, now);
  }

  lemma {:induction false} BatchOrdered(q: Queue, batch: seq<Id>, now: int, scripts: seq<seq<Act>>)
    requires Ordered(q.timers) && |scripts| == |batch|
    ensures Ordered(RunBatch(q, batch, now, scripts).timers)
    decreases |batch|
  {
    if batch != [] {
      TimerOrdered(q, batch[0], now, scripts[0]);
      BatchOrdered(RunTimer(q, batch[0], now, scripts[0]), batch[1..], now, scripts[1..]);
    }
  }

  /** Main result: after every event the descriptor is armed for the earliest pending
      timer, whatever was added, canceled, expired or re-inserted. */
  lemma StepIdle(q: Queue, e: Event)
    requires Idle(q) && Legal(q, e)
    ensures Idle(Step(q, e))
  {
    match e
    case Allocated(_) =>
    case AddTask(id) => InsertIdle(q.(waiting := q.waiting - {id}), id);
    case Call(a) => ActIdle(q, a);
    case Expired(now, scripts) =>
      var b := RunBatch(Begin(q, now), Batch(q, now), now, scripts);
      BatchOrdered(Begin(q, now), Batch(q, now), now, scripts);
      PurgedIs(b.timers, b.memory, b.canceling);
  }

  // ---- where each timer is ----

  ghost predicate Queued(q: Queue, id: Id) {
    exists e :: e in q.timers && e.id == id
  }

  function One(b: bool): nat { if b then 1 else 0 }

  /** Entries carry the timer's own expiration; keys are allocated in order. */
  ghost predicate Linked(q: Queue) {
    && Ordered(q.timers)
    && (forall e | e in q.timers :: e.id in q.memory && q.memory[e.id].expiration == e.expiration)
    && (forall id: Id :: id in q.memory <==> id < q.nextId)
    && q.pending <= q.waiting
  }

  /** The number of owners of a timer: the set, a queued add task, the batch being run,
      the cancel list, and each time it was deleted. */
  ghost function Owners(q: Queue, batch: seq<Id>, id: Id): nat {
    One(Queued(q, id)) + One(id in q.waiting) + One(id in batch) + One(id in q.canceling) + q.freed[id]
  }

  ghost predicate Distinct(batch: seq<Id>) {
    forall i, j | 0 <= i < j < |batch| :: batch[i] != batch[j]
  }

  /** Every timer ever allocated has exactly one owner; deleted means deleted once. */
  ghost predicate Owned(q: Queue, batch: seq<Id>) {
    && Linked(q) && Distinct(batch)
    && (forall id: Id :: id !in q.memory ==> Owners(q, batch, id) == 0)
    && (forall id | id in q.memory :: Owners(q, batch, id) == 1)
  }

  /** A cancel from a callback finds its timer in the set, or it was already canceled in
      this batch. It does not hit a timer of the running batch that has not been
      re-inserted, nor one whose add task is still queued. */
  ghost predicate CleanAct(q: Queue, a: Act) {
    a.CancelTimer? && q.calling ==> Queued(q, a.id) || a.id in q.canceling
  }

  ghost predicate CleanActs(q: Queue, acts: seq<Act>)
    decreases |acts|
  {
    acts != [] ==> CleanAct(q, acts[0]) && CleanActs(RunAct(q, acts[0]), acts[1..])
  }

  ghost predicate CleanBatch(q: Queue, batch: seq<Id>, now: int, scripts: seq<seq<Act>>)
    requires |scripts| == |batch|
    decreases |batch|
  {
    batch != [] ==>
      && (batch[0] !in q.canceling ==> CleanActs(q.(started := q.started + [batch[0]]), scripts[0]))
      && CleanBatch(RunTimer(q, batch[0], now, scripts[0]), batch[1..], now, scripts[1..])
  }

  ghost predicate CleanEvent(q: Queue, e: Event)
    requires Legal(q, e)
  {
    e.Expired? ==> CleanBatch(Begin(q, e.now), Batch(q, e.now), e.now, e.scripts)
  }

  /** Inserting a timer nobody owns makes the set its owner. */
  lemma InsertOwned(q: Queue, batch: seq<Id>, id: Id)
    requires Linked(q) && Distinct(batch) && id in q.memory && Owners(q, batch, id) == 0
    requires forall x: Id :: x !in q.memory ==> Owners(q, batch, x) == 0
    requires forall x | x in q.memory && x != id :: Owners(q, batch, x) == 1
    ensures Owned(Insert(q, id), batch)
  {
    var e := Entry(q.memory[id].expiration, id);
    var q' := Insert(q, id);
    InsertedIs(q.timers, e);
    forall x ensures Queued(q', x) <==> x == id || Queued(q, x) {
      if Queued(q, x) { var y :| y in q.timers && y.id == x; assert y in q'.timers; }
      if x == id { assert e in q'.timers; }
    }
    forall x ensures Owners(q', batch, x) == Owners(q, batch, x) + One(x == id) { }
  }

  /** Erasing a queued timer leaves it without that owner. */
  lemma EraseQueued(q: Queue, id: Id)
    requires Linked(q) && Queued(q, id)
    ensures var e := Entry(q.memory[id].expiration, id); var q' := q.(timers := Erased(q.timers, e));
            e in q.timers && Linked(q') && forall x :: Queued(q', x) <==> x != id && Queued(q, x)
  {
    var e := Entry(q.memory[id].expiration, id);
    var y :| y in q.timers && y.id == id;
    assert y == e;
    var q' := q.(timers := Erased(q.timers, e));
    ErasedIs(q.timers, e);
    forall x ensures Queued(q', x) <==> x != id && Queued(q, x) {
      if x != id && Queued(q, x) { var z :| z in q.timers && z.id == x; assert z in q'.timers; }
    }
  }

  lemma CreateOwned(q: Queue, batch: seq<Id>, t: Timer)
    requires Owned(q, batch)
    ensures Owned(RunAct(q, Create(t)), batch)
  {
    var id := q.nextId;
    var q1 := Allocate(q, t);
    var q2 := q1.(waiting := q1.waiting - {id});
    assert Owners(q, batch, id) == 0;
    assert id !in q.pending;
    forall x ensures Queued(q2, x) == Queued(q, x) { }
    forall x ensures Owners(q2, batch, x) == Owners(q, batch, x) { }
    InsertOwned(q2, batch, id);
  }

  lemma CancelOwned(q: Queue, batch: seq<Id>, id: Id)
    requires Owned(q, batch) && LegalAct(q, CancelTimer(id)) && CleanAct(q, CancelTimer(id))
    requires q.calling || (batch == [] && q.canceling == {})
    ensures Owned(Cancel(q, id), batch)
  {
    var q' := Cancel(q, id);
    if Queued(q, id) {
      EraseQueued(q, id);
      assert Linked(q');
      forall x ensures Owners(q', batch, x) == Owners(q, batch, x) { }
    } else {
      assert Entry(q.memory[id].expiration, id) !in q.timers;
      if q.calling {
        assert q' == q by { assert q.canceling + {id} == q.canceling; }
      } else {
        assert id in q.waiting;
        forall x ensures Queued(q', x) == Queued(q, x) { }
        forall x ensures Owners(q', batch, x) == Owners(q, batch, x) { }
      }
    }
  }

  lemma {:induction false} ActsOwned(q: Queue, batch: seq<Id>, acts: seq<Act>)
    requires Owned(q, batch) && q.calling && LegalActs(q, acts) && CleanActs(q, acts)
    ensures Owned(RunActs(q, acts), batch) && RunActs(q, acts).calling
    decreases |acts|
  {
    if acts != [] {
      match acts[0] {
        case Create(t) => CreateOwned(q, batch, t);
        case CancelTimer(id) => CancelOwned(q, batch, id);
      }
      ActIdle(q, acts[0]);
      ActsOwned(RunAct(q, acts[0]), batch, acts[1..]);
    }
  }

  /** Leaving the batch for the set. */
  lemma RestartOwned(q: Queue, batch: seq<Id>, when: int)
    requires batch != [] && Owned(q, batch) && batch[0] in q.memory
    ensures Owned(Insert(q.(memory := q.memory[batch[0] := q.memory[batch[0]].(expiration := when)]), batch[0]), batch[1..])
  {
    var id := batch[0];
    var q2 := q.(memory := q.memory[id := q.memory[id].(expiration := when)]);
    BatchRest(batch);
    assert id in batch && Owners(q, batch, id) == 1;
    forall x ensures Queued(q2, x) == Queued(q, x) { }
    forall x ensures Owners(q2, batch[1..], x) == Owners(q, batch, x) - One(x == id) { }
    forall e | e in q2.timers ensures e.id in q2.memory && q2.memory[e.id].expiration == e.expiration {
      assert Queued(q, e.id);
    }
    InsertOwned(q2, batch[1..], id);
  }

  /** Leaving the batch by deletion. */
  lemma FreeOwned(q: Queue, batch: seq<Id>)
    requires batch != [] && Owned(q, batch)
    ensures Owned(q.(freed := q.freed + multiset{batch[0]}), batch[1..])
  {
    var id := batch[0];
    var q2 := q.(freed := q.freed + multiset{id});
    BatchRest(batch);
    assert id in batch;
    forall x ensures Queued(q2, x) == Queued(q, x) { }
    forall x ensures Owners(q2, batch[1..], x) == Owners(q, batch, x) { }
  }

  lemma AfterRunOwned(q: Queue, batch: seq<Id>, now: int)
    requires batch != [] && Owned(q, batch)
    ensures Owned(AfterRun(q, batch[0], now), batch[1..])
  {
    assert batch[0] in batch && Owners(q, batch, batch[0]) == 1;
    RestartOwned(q, batch, now + q.memory[batch[0]].interval);
    FreeOwned(q, batch);
  }

  lemma StartOwned(q: Queue, batch: seq<Id>)
    requires batch != [] && Owned(q, batch)
    ensures Owned(q.(started := q.started + [batch[0]]), batch)
  {
    var q0 := q.(started := q.started + [batch[0]]);
    forall x ensures Queued(q0, x) == Queued(q, x) { }
    forall x ensures Owners(q0, batch, x) == Owners(q, batch, x) { }
  }

  /** Running one timer of the batch hands it back to the set or deletes it. */
  lemma TimerOwned(q: Queue, batch: seq<Id>, now: int, acts: seq<Act>)
    requires batch != [] && Owned(q, batch) && q.calling && batch[0] !in q.canceling
    requires LegalActs(q.(started := q.started + [batch[0]]), acts) && CleanActs(q.(started := q.started + [batch[0]]), acts)
    ensures var q' := RunTimer(q, batch[0], now, acts); Owned(q', batch[1..]) && q'.calling
  {
    var q0 := q.(started := q.started + [batch[0]]);
    StartOwned(q, batch);
    ActsOwned(q0, batch, acts);
    AfterRunOwned(RunActs(q0, acts), batch, now);
  }

  lemma BatchRest(batch: seq<Id>)
    requires batch != [] && Distinct(batch)
    ensures Distinct(batch[1..])
    ensures forall x :: x in batch[1..] <==> x in batch && x != batch[0]
  {
    forall x | x in batch && x != batch[0] ensures x in batch[1..] {
      var i :| 0 <= i < |batch| && batch[i] == x;
      assert batch[1..][i - 1] == x;
    }
    forall x | x in batch[1..] ensures x in batch && x != batch[0] {
      var i :| 0 <= i < |batch[1..]| && batch[1..][i] == x;
      assert batch[i + 1] == x;
    }
  }

  lemma {:induction false} BatchOwned(q: Queue, batch: seq<Id>, now: int, scripts: seq<seq<Act>>)
    requires |scripts| == |batch| && Owned(q, batch) && q.calling
    requires LegalBatch(q, batch, now, scripts) && CleanBatch(q, batch, now, scripts)
    ensures Owned(RunBatch(q, batch, now, scripts), [])
    decreases |batch|
  {
    if batch != [] {
      assert batch[0] in batch && Owners(q, batch, batch[0]) == 1;
      TimerOwned(q, batch, now, scripts[0]);
      BatchOwned(RunTimer(q, batch[0], now, scripts[0]), batch[1..], now, scripts[1..]);
    } else {
      assert batch == [];
    }
  }

  /** In an ordered, linked set an id occurs once. */
  lemma DifferentIds(q: Queue, i: nat, j: nat)
    requires Linked(q) && i < |q.timers| && j < |q.timers| && i != j
    ensures q.timers[i].id != q.timers[j].id
  {
    assert q.timers[i] in q.timers && q.timers[j] in q.timers;
    assert if i < j then Before(q.timers[i], q.timers[j]) else Before(q.timers[j], q.timers[i]);
  }

  lemma TakenOrLeft(q: Queue, k: nat, x: Id)
    requires Linked(q) && k <= |q.timers|
    ensures One(exists e :: e in q.timers[k..] && e.id == x) + One(x in Ids(q.timers[..k])) == One(Queued(q, x))
  {
    var taken := Ids(q.timers[..k]);
    if x in taken {
      var i :| 0 <= i < k && taken[i] == x;
      assert q.timers[i] in q.timers;
      forall e | e in q.timers[k..] ensures e.id != x {
        var j :| 0 <= j < |q.timers| - k && q.timers[k..][j] == e;
        DifferentIds(q, i, k + j);
      }
    } else if Queued(q, x) {
      var e :| e in q.timers && e.id == x;
      var i :| 0 <= i < |q.timers| && q.timers[i] == e;
      forall a | 0 <= a < k ensures q.timers[a].id != x { assert taken[a] in taken; }
      assert q.timers[k..][i - k] == e;
    } else {
      forall e | e in q.timers[k..] ensures e in q.timers { }
    }
  }

  /** Starting a batch moves the due timers from the set to the batch. */
  lemma BeginOwned(q: Queue, now: int)
    requires Owned(q, [])
    ensures Owned(Begin(q, now), Batch(q, now))
  {
    var k := ExpiredCount(q.timers, now);
    var q' := Begin(q, now);
    var batch := Batch(q, now);
    forall i, j | 0 <= i < j < |batch| ensures batch[i] != batch[j] {
      DifferentIds(q, i, j);
    }
    forall x ensures One(Queued(q', x)) + One(x in batch) == One(Queued(q, x)) { TakenOrLeft(q, k, x); }
    forall x ensures Owners(q', batch, x) == Owners(q, [], x) { }
    forall e | e in q'.timers ensures e in q.timers { }
  }

  lemma FinishOwned(q: Queue)
    requires Owned(q, [])
    ensures Owned(Finish(q), [])
  {
    forall e | e in q.timers ensures e.id !in q.canceling {
      assert Queued(q, e.id) && Owners(q, [], e.id) == 1;
    }
    PurgedIs(q.timers, q.memory, q.canceling);
    var q' := Finish(q);
    forall x ensures Queued(q', x) == Queued(q, x) { }
    forall x ensures Owners(q', [], x) == Owners(q, [], x) { }
  }

  lemma AddTaskOwned(q: Queue, id: Id)
    requires Owned(q, []) && id in q.waiting && id in q.memory
    ensures Owned(Add(q, id), [])
  {
    var q1 := q.(waiting := q.waiting - {id});
    forall x ensures Queued(q1, x) == Queued(q, x) { }
    assert Owners(q, [], id) == 1;
    if id in q.pending {
      var q' := Add(q, id);
      forall x ensures Queued(q', x) == Queued(q, x) { }
      forall x ensures Owners(q', [], x) == Owners(q, [], x) { }
    } else {
      forall x ensures Owners(q1, [], x) == Owners(q, [], x) - One(x == id) { }
      InsertOwned(q1, [], id);
    }
  }

  lemma AllocatedOwned(q: Queue, t: Timer)
    requires Owned(q, [])
    ensures Owned(Allocate(q, t), [])
  {
    var q' := Allocate(q, t);
    forall x ensures Queued(q', x) == Queued(q, x) { }
    assert Owners(q, [], q.nextId) == 0;
    forall x ensures Owners(q', [], x) == Owners(q, [], x) + One(x == q.nextId) { }
  }

  /** A step without such a cancel keeps every timer under exactly one owner. */
  lemma StepOwned(q: Queue, e: Event)
    requires Idle(q) && Owned(q, []) && Legal(q, e) && CleanEvent(q, e)
    ensures Owned(Step(q, e), [])
  {
    match e
    case Allocated(t) => AllocatedOwned(q, t);
    case AddTask(id) => AddTaskOwned(q, id);
    case Call(a) =>
      match a {
        case Create(t) => CreateOwned(q, [], t);
        case CancelTimer(id) => CancelOwned(q, [], id);
      }
    case Expired(now, scripts) =>
      BeginOwned(q, now);
      BatchOwned(Begin(q, now), Batch(q, now), now, scripts);
      FinishOwned(RunBatch(Begin(q, now), Batch(q, now), now, scripts));
  }

  // ---- exactly when ownership breaks ----

  /** On the cancel list although the batch, an add task or a deletion also has it. */
  ghost predicate Doomed(q: Queue, batch: seq<Id>, id: Id) {
    id in q.memory && id < q.nextId && q.calling && id in q.canceling && (id in batch || id in q.waiting || q.freed[id] > 0)
  }

  lemma {:induction false} DoomedActs(q: Queue, batch: seq<Id>, acts: seq<Act>, id: Id)
    requires Doomed(q, batch, id)
    ensures Doomed(RunActs(q, acts), batch, id)
    decreases |acts|
  {
    if acts != [] { DoomedActs(RunAct(q, acts[0]), batch, acts[1..], id); }
  }

  /** The end of one timer's turn does not save a doomed one. */
  lemma DoomedTurn(q: Queue, batch: seq<Id>, id: Id, now: int)
    requires batch != [] && Doomed(q, batch, id)
    ensures Doomed(AfterRun(q, batch[0], now), batch[1..], id)
  {
    if id in batch && id != batch[0] {
      var i :| 0 <= i < |batch| && batch[i] == id;
      assert batch[1..][i - 1] == id;
    }
  }

  lemma {:induction false} DoomedBatch(q: Queue, batch: seq<Id>, now: int, scripts: seq<seq<Act>>, id: Id)
    requires |scripts| == |batch| && Doomed(q, batch, id)
    ensures Doomed(RunBatch(q, batch, now, scripts), [], id)
    decreases |batch|
  {
    if batch != [] {
      var q0 := q.(started := q.started + [batch[0]]);
      DoomedActs(q0, batch, scripts[0], id);
      DoomedTurn(if batch[0] in q.canceling then q else RunActs(q0, scripts[0]), batch, id, now);
      DoomedBatch(RunTimer(q, batch[0], now, scripts[0]), batch[1..], now, scripts[1..], id);
    } else {
      assert batch == [];
    }
  }

  lemma {:induction false} UncleanActs(q: Queue, batch: seq<Id>, acts: seq<Act>) returns (id: Id)
    requires Owned(q, batch) && q.calling && LegalActs(q, acts) && !CleanActs(q, acts)
    ensures Doomed(RunActs(q, acts), batch, id)
    decreases |acts|
  {
    if CleanAct(q, acts[0]) {
      ActsOwned(q, batch, [acts[0]]);
      assert RunActs(q, [acts[0]]) == RunAct(q, acts[0]);
      id := UncleanActs(RunAct(q, acts[0]), batch, acts[1..]);
    } else {
      id := acts[0].id;
      assert Owners(q, batch, id) == 1;
      assert Entry(q.memory[id].expiration, id) !in q.timers;
      DoomedActs(RunAct(q, acts[0]), batch, acts[1..], id);
    }
  }

  lemma {:induction false} UncleanBatch(q: Queue, batch: seq<Id>, now: int, scripts: seq<seq<Act>>) returns (id: Id)
    requires |scripts| == |batch| && Owned(q, batch) && q.calling
    requires LegalBatch(q, batch, now, scripts) && !CleanBatch(q, batch, now, scripts)
    ensures Doomed(RunBatch(q, batch, now, scripts), [], id)
    decreases |batch|
  {
    assert batch[0] in batch && Owners(q, batch, batch[0]) == 1;
    var q0 := q.(started := q.started + [batch[0]]);
    if CleanActs(q0, scripts[0]) {
      TimerOwned(q, batch, now, scripts[0]);
      id := UncleanBatch(RunTimer(q, batch[0], now, scripts[0]), batch[1..], now, scripts[1..]);
    } else {
      StartOwned(q, batch);
      id := UncleanActs(q0, batch, scripts[0]);
      DoomedTurn(RunActs(q0, scripts[0]), batch, id, now);
      DoomedBatch(RunTimer(q, batch[0], now, scripts[0]), batch[1..], now, scripts[1..], id);
    }
  }

  /** Main result: a step keeps every timer under exactly one owner, so that none is
      deleted twice or inserted after deletion, if and only if no callback cancels a
      timer of the running batch that has not been re-inserted, nor one still waiting. */
  lemma StepOwnedIff(q: Queue, e: Event)
    requires Idle(q) && Owned(q, []) && Legal(q, e)
    ensures Owned(Step(q, e), []) <==> CleanEvent(q, e)
  {
    if CleanEvent(q, e) {
      StepOwned(q, e);
    } else {
      BeginOwned(q, e.now);
      var b := RunBatch(Begin(q, e.now), Batch(q, e.now), e.now, e.scripts);
      var id := UncleanBatch(Begin(q, e.now), Batch(q, e.now), e.now, e.scripts);
      assert Owners(Finish(b), [], id) >= 2;
    }
  }

  // ---- such a run: a repeating timer cancels itself in its callback ----

  const REPEATING := Timer(5, true, 1)
  const SELF_CANCEL := Expired(5, [[CancelTimer(0)]])
  const WITH_REPEATING := Queue([Entry(5, 0)], map[0 := REPEATING], {}, {}, {}, false, Some(5), multiset{}, [], 1)

  lemma RepeatingAdded()
    ensures Add(Allocate(NEW, REPEATING), 0) == WITH_REPEATING
    ensures Idle(WITH_REPEATING) && Owned(WITH_REPEATING, [])
  {
    NewOwned();
    StepIdle(NEW, Allocated(REPEATING));
    StepOwned(NEW, Allocated(REPEATING));
    StepIdle(Allocate(NEW, REPEATING), AddTask(0));
    StepOwned(Allocate(NEW, REPEATING), AddTask(0));
  }

  lemma SelfCancelFrees()
    ensures Legal(WITH_REPEATING, SELF_CANCEL) && !CleanEvent(WITH_REPEATING, SELF_CANCEL)
    ensures Step(WITH_REPEATING, SELF_CANCEL).freed[0] == 2
  {
    assert Begin(WITH_REPEATING, 5) == RUNNING && Batch(WITH_REPEATING, 5) == [0];
    SelfCancelRuns();
    assert Expire(WITH_REPEATING, 5, [[CancelTimer(0)]]).freed == multiset{0} + multiset{0};
  }

  const RUNNING := WITH_REPEATING.(timers := [], calling := true)

  /** The cancel is only noted, and the timer deleted at the end of its turn. */
  lemma SelfCancelRuns()
    ensures LegalBatch(RUNNING, [0], 5, [[CancelTimer(0)]]) && !CleanBatch(RUNNING, [0], 5, [[CancelTimer(0)]])
    ensures RunBatch(RUNNING, [0], 5, [[CancelTimer(0)]]) == RUNNING.(started := [0], canceling := {0}, freed := multiset{0})
  {
    var started := RUNNING.(started := [0]);
    var canceled := started.(canceling := {0});
    assert RunActs(started, [CancelTimer(0)]) == RunAct(started, CancelTimer(0)) == canceled;
    assert RunTimer(RUNNING, 0, 5, [CancelTimer(0)]) == canceled.(freed := multiset{0});
  }

  lemma DeletedTwice() returns (t: Trace)
    ensures IsRun(t) && t.events == [Allocated(REPEATING), AddTask(0), SELF_CANCEL]
    ensures t.states[3].freed[0] == 2 && !Owned(t.states[3], [])
  {
    var q1 := Allocate(NEW, REPEATING);
    RepeatingAdded();
    SelfCancelFrees();
    StepOwnedIff(WITH_REPEATING, SELF_CANCEL);
    t := Trace([Allocated(REPEATING), AddTask(0), SELF_CANCEL], [NEW, q1, WITH_REPEATING, Step(WITH_REPEATING, SELF_CANCEL)]);
    forall n: nat | n < 3 ensures Link(t, n) { }
  }

  lemma NewOwned()
    ensures Idle(NEW) && Owned(NEW, [])
  {
    assert NEW.timers == [] && NEW.memory == map[] && NEW.nextId == 0;
    assert Linked(NEW);
    forall x ensures !Queued(NEW, x) && Owners(NEW, [], x) == 0 { }
  }

  /** Main result: on clean runs the descriptor stays armed for the earliest timer and
      every timer has exactly one owner. */
  lemma {:induction false} RunOwned(t: Trace, n: nat)
    requires IsRun(t) && n <= |t.events|
    requires forall m: nat {:trigger Link(t, m)} :: m < n ==> Link(t, m) && CleanEvent(t.states[m], t.events[m])
    ensures Idle(t.states[n]) && Owned(t.states[n], [])
  {
    NewOwned();
    if n > 0 {
      RunOwned(t, n - 1);
      assert Link(t, n - 1);
      StepIdle(t.states[n - 1], t.events[n - 1]);
      StepOwned(t.states[n - 1], t.events[n - 1]);
    }
  }

  lemma {:induction false} RunIdle(t: Trace, n: nat)
    requires IsRun(t) && n <= |t.events|
    ensures Idle(t.states[n])
  {
    if n > 0 {
      RunIdle(t, n - 1);
      assert Link(t, n - 1);
      StepIdle(t.states[n - 1], t.events[n - 1]);
    }
  }

  lemma {:induction false} IdsOnce(q: Queue, k: nat, x: Id)
    requires Linked(q) && k <= |q.timers|
    ensures multiset(Ids(q.timers[..k]))[x] == One(x in Ids(q.timers[..k]))
  {
    if k > 0 {
      IdsOnce(q, k - 1, x);
      var before := Ids(q.timers[..k - 1]);
      assert Ids(q.timers[..k]) == before + [q.timers[k - 1].id];
      forall i | 0 <= i < k - 1 ensures before[i] != q.timers[k - 1].id { DifferentIds(q, i, k - 1); }
    }
  }

  /** The destructor leaves every timer deleted exactly once, except those whose add task
      never ran and was not canceled. */
  lemma DestroyFreesAll(q: Queue, id: Id)
    requires Idle(q) && Owned(q, []) && id in q.memory
    ensures Destroyed(q).freed[id] <= 1
    ensures Destroyed(q).freed[id] == 1 <==> id !in q.waiting || id in q.pending
  {
    assert q.timers[..|q.timers|] == q.timers;
    IdsOnce(q, |q.timers|, id);
    assert Owners(q, [], id) == 1;
    if Queued(q, id) {
      var e :| e in q.timers && e.id == id;
      var i :| 0 <= i < |q.timers| && q.timers[i] == e;
      assert Ids(q.timers)[i] == id;
    } else {
      forall i | 0 <= i < |q.timers| ensures Ids(q.timers)[i] != id { assert q.timers[i] in q.timers; }
    }
  }

  // ---- a canceled timer never starts again ----

  /** Queue, batch and add tasks do not overlap, and every timer is somewhere. */
  ghost predicate Apart(q: Queue, batch: seq<Id>) {
    && Linked(q) && Distinct(batch)
    && (forall id | id in batch :: id in q.memory && !Queued(q, id))
    && (forall id | id in q.waiting :: id in q.memory && !Queued(q, id) && id !in batch)
    && (forall id | id in q.memory :: Queued(q, id) || id in q.waiting || id in batch || id in q.canceling || q.freed[id] > 0)
  }

  /** No callback cancels a timer whose add task is still queued. */
  ghost predicate TimelyAct(q: Queue, a: Act) {
    a.CancelTimer? && q.calling ==> a.id !in q.waiting
  }

  lemma InsertApart(q: Queue, batch: seq<Id>, id: Id)
    requires Linked(q) && Distinct(batch) && id in q.memory && id !in batch && id !in q.waiting && !Queued(q, id)
    requires forall x | x in batch :: x in q.memory && !Queued(q, x)
    requires forall x | x in q.waiting :: x in q.memory && !Queued(q, x) && x !in batch
    requires forall x | x in q.memory && x != id :: Queued(q, x) || x in q.waiting || x in batch || x in q.canceling || q.freed[x] > 0
    ensures Apart(Insert(q, id), batch)
    ensures forall x :: Queued(Insert(q, id), x) <==> x == id || Queued(q, x)
  {
    var e := Entry(q.memory[id].expiration, id);
    var q' := Insert(q, id);
    InsertedIs(q.timers, e);
    forall x ensures Queued(q', x) <==> x == id || Queued(q, x) {
      if Queued(q, x) { var y :| y in q.timers && y.id == x; assert y in q'.timers; }
      if x == id { assert e in q'.timers; }
    }
  }

  lemma CreateApart(q: Queue, batch: seq<Id>, t: Timer)
    requires Apart(q, batch)
    ensures Apart(RunAct(q, Create(t)), batch)
  {
    var q2 := Allocate(q, t).(waiting := Allocate(q, t).waiting - {q.nextId});
    forall x ensures Queued(q2, x) == Queued(q, x) { }
    assert q.nextId !in batch && q.nextId !in q.pending && !Queued(q, q.nextId);
    InsertApart(q2, batch, q.nextId);
  }

  lemma CancelApart(q: Queue, batch: seq<Id>, id: Id)
    requires Apart(q, batch) && LegalAct(q, CancelTimer(id)) && (q.calling || (batch == [] && q.canceling == {}))
    ensures Apart(Cancel(q, id), batch)
    ensures !Queued(Cancel(q, id), id) && forall x :: x != id ==> Queued(Cancel(q, id), x) == Queued(q, x)
  {
    var q' := Cancel(q, id);
    if Queued(q, id) {
      EraseQueued(q, id);
      forall x ensures Queued(q', x) <==> x != id && Queued(q, x) { }
    } else {
      assert Entry(q.memory[id].expiration, id) !in q.timers;
      forall x ensures Queued(q', x) == Queued(q, x) { }
    }
  }

  lemma ActApart(q: Queue, batch: seq<Id>, a: Act)
    requires Apart(q, batch) && LegalAct(q, a) && (q.calling || (batch == [] && q.canceling == {}))
    ensures Apart(RunAct(q, a), batch)
  {
    match a
    case Create(t) => CreateApart(q, batch, t);
    case CancelTimer(id) => CancelApart(q, batch, id);
  }

  lemma {:induction false} ActsApart(q: Queue, batch: seq<Id>, acts: seq<Act>)
    requires Apart(q, batch) && q.calling && LegalActs(q, acts)
    ensures Apart(RunActs(q, acts), batch) && RunActs(q, acts).calling
    decreases |acts|
  {
    if acts != [] {
      ActApart(q, batch, acts[0]);
      ActIdle(q, acts[0]);
      ActsApart(RunAct(q, acts[0]), batch, acts[1..]);
    }
  }

  /** Canceled: not in the set; if its add task still has to run, or it sits in the running
      batch, the cancel is on record there. */
  ghost predicate Canceled(q: Queue, batch: seq<Id>, id: Id) {
    && id in q.memory && id < q.nextId && !Queued(q, id)
    && (id in q.waiting ==> id in q.pending)
    && (id in batch ==> id in q.canceling)
  }

  function Starts(q: Queue, id: Id): nat { multiset(q.started)[id] }

  /** Processing a timely cancel puts the timer on record. */
  lemma CancelTakes(q: Queue, batch: seq<Id>, id: Id)
    requires Apart(q, batch) && LegalAct(q, CancelTimer(id)) && TimelyAct(q, CancelTimer(id))
    requires q.calling || (batch == [] && q.canceling == {})
    ensures Canceled(Cancel(q, id), batch, id) && Cancel(q, id).started == q.started
  {
    CancelApart(q, batch, id);
  }

  lemma UnqueuedInsert(q: Queue, x: Id, id: Id)
    requires x in q.memory && x != id && !Queued(q, id) && Ordered(q.timers)
    ensures !Queued(Insert(q, x), id)
  {
    InsertedIs(q.timers, Entry(q.memory[x].expiration, x));
  }

  lemma UnqueuedCancel(q: Queue, x: Id, id: Id)
    requires x in q.memory && !Queued(q, id) && Ordered(q.timers)
    ensures !Queued(Cancel(q, x), id)
  {
    ErasedIs(q.timers, Entry(q.memory[x].expiration, x));
  }

  lemma ActKeepsCanceled(q: Queue, batch: seq<Id>, a: Act, id: Id)
    requires Canceled(q, batch, id) && Ordered(q.timers)
    ensures Canceled(RunAct(q, a), batch, id) && RunAct(q, a).started == q.started && Ordered(RunAct(q, a).timers)
  {
    ActIdle(q, a);
    match a
    case Create(t) =>
      var q2 := Allocate(q, t).(waiting := Allocate(q, t).waiting - {q.nextId});
      UnqueuedInsert(q2, q.nextId, id);
    case CancelTimer(x) => if x in q.memory { UnqueuedCancel(q, x, id); }
  }

  lemma {:induction false} ActsKeepCanceled(q: Queue, batch: seq<Id>, acts: seq<Act>, id: Id)
    requires Canceled(q, batch, id) && Ordered(q.timers)
    ensures Canceled(RunActs(q, acts), batch, id) && RunActs(q, acts).started == q.started && Ordered(RunActs(q, acts).timers)
    decreases |acts|
  {
    if acts != [] {
      ActKeepsCanceled(q, batch, acts[0], id);
      ActsKeepCanceled(RunAct(q, acts[0]), batch, acts[1..], id);
    }
  }

  lemma AfterRunKeepsCanceled(q: Queue, batch: seq<Id>, id: Id, now: int)
    requires batch != [] && Canceled(q, batch, id) && Ordered(q.timers)
    ensures var q' := AfterRun(q, batch[0], now);
            Canceled(q', batch[1..], id) && q'.started == q.started && Ordered(q'.timers)
  {
    var b := batch[0];
    if b in q.memory && q.memory[b].repeat && b !in q.canceling {
      var q2 := q.(memory := q.memory[b := q.memory[b].(expiration := now + q.memory[b].interval)]);
      assert b != id;
      UnqueuedInsert(q2, b, id);
      InsertIdle(q2, b);
    }
    forall x | x in batch[1..] ensures x in batch { }
  }

  /** One timer's turn keeps another one canceled and does not start it. */
  lemma TurnKeepsCanceled(q: Queue, batch: seq<Id>, now: int, acts: seq<Act>, id: Id)
    requires batch != [] && Canceled(q, batch, id) && Ordered(q.timers)
    ensures var q' := RunTimer(q, batch[0], now, acts);
            Canceled(q', batch[1..], id) && Starts(q', id) == Starts(q, id) && Ordered(q'.timers)
  {
    var b := batch[0];
    if b in q.canceling {
      AfterRunKeepsCanceled(q, batch, id, now);
    } else {
      var q0 := q.(started := q.started + [b]);
      assert b != id && Starts(q0, id) == Starts(q, id);
      assert Canceled(q0, batch, id) by { assert Queued(q0, id) == Queued(q, id); }
      ActsKeepCanceled(q0, batch, acts, id);
      AfterRunKeepsCanceled(RunActs(q0, acts), batch, id, now);
    }
  }

  /** A canceled timer is skipped by the rest of the batch. */
  lemma {:induction false} BatchKeepsCanceled(q: Queue, batch: seq<Id>, now: int, scripts: seq<seq<Act>>, id: Id)
    requires |scripts| == |batch| && Canceled(q, batch, id) && Ordered(q.timers)
    ensures var q' := RunBatch(q, batch, now, scripts);
            Canceled(q', [], id) && Starts(q', id) == Starts(q, id) && Ordered(q'.timers)
    decreases |batch|
  {
    if batch != [] {
      TurnKeepsCanceled(q, batch, now, scripts[0], id);
      BatchKeepsCanceled(RunTimer(q, batch[0], now, scripts[0]), batch[1..], now, scripts[1..], id);
    } else {
      assert batch == [];
    }
  }

  lemma FinishKeepsCanceled(q: Queue, id: Id)
    requires Canceled(q, [], id) && Ordered(q.timers)
    ensures Canceled(Finish(q), [], id) && Finish(q).started == q.started
  {
    PurgedIs(q.timers, q.memory, q.canceling);
  }

  lemma {:induction false} LegalSplit(q: Queue, acts: seq<Act>, k: nat)
    requires LegalActs(q, acts) && k <= |acts|
    ensures LegalActs(q, acts[..k]) && LegalActs(RunActs(q, acts[..k]), acts[k..])
    ensures RunActs(q, acts) == RunActs(RunActs(q, acts[..k]), acts[k..])
    decreases k
  {
    if k > 0 {
      LegalSplit(RunAct(q, acts[0]), acts[1..], k - 1);
      assert acts[..k][1..] == acts[1..][..k - 1] && acts[1..][k - 1..] == acts[k..];
    } else {
      assert acts[..k] == [] && acts[k..] == acts;
    }
  }

  lemma {:induction false} ActsNeverStart(q: Queue, acts: seq<Act>)
    ensures RunActs(q, acts).started == q.started
    decreases |acts|
  {
    if acts != [] { ActsNeverStart(RunAct(q, acts[0]), acts[1..]); }
  }

  lemma SplitAtCancel(q: Queue, acts: seq<Act>, k: nat, id: Id)
    requires LegalActs(q, acts) && k < |acts| && acts[k] == CancelTimer(id)
    ensures var q1 := RunActs(q, acts[..k]);
            LegalActs(q, acts[..k]) && LegalAct(q1, CancelTimer(id)) && RunActs(q, acts) == RunActs(Cancel(q1, id), acts[k + 1..])
  {
    LegalSplit(q, acts, k);
    assert acts[k..][0] == acts[k] && acts[k..][1..] == acts[k + 1..];
  }

  /** A timely cancel at step `k` of a script leaves its timer on record at the end of the script. */
  lemma ScriptCancels(q: Queue, batch: seq<Id>, acts: seq<Act>, k: nat, id: Id)
    requires Apart(q, batch) && q.calling && LegalActs(q, acts) && k < |acts| && acts[k] == CancelTimer(id)
    requires id !in RunActs(q, acts[..k]).waiting
    ensures var q' := RunActs(q, acts); Canceled(q', batch, id) && q'.started == q.started && Ordered(q'.timers)
  {
    var q1 := RunActs(q, acts[..k]);
    SplitAtCancel(q, acts, k, id);
    ActsApart(q, batch, acts[..k]);
    ActsNeverStart(q, acts[..k]);
    CancelScript(q1, batch, acts[k + 1..], id);
  }

  lemma CancelScript(q: Queue, batch: seq<Id>, acts: seq<Act>, id: Id)
    requires Apart(q, batch) && q.calling && LegalAct(q, CancelTimer(id)) && id !in q.waiting
    ensures var q' := RunActs(Cancel(q, id), acts); Canceled(q', batch, id) && q'.started == q.started && Ordered(q'.timers)
  {
    CancelTakes(q, batch, id);
    CancelIdle(q, id);
    ActsKeepCanceled(Cancel(q, id), batch, acts, id);
  }

  /** Main result, inside a batch: when a callback cancels a timer at step `k` of its
      script, that timer's callback does not start again before the event ends, and it
      stays canceled. */
  lemma CancelInCallback(q: Queue, batch: seq<Id>, now: int, scripts: seq<seq<Act>>, k: nat, id: Id)
    requires |scripts| == |batch| && batch != [] && Apart(q, batch) && q.calling && batch[0] !in q.canceling
    requires var q0 := q.(started := q.started + [batch[0]]);
             && LegalActs(q0, scripts[0]) && k < |scripts[0]| && scripts[0][k] == CancelTimer(id)
             && id !in RunActs(q0, scripts[0][..k]).waiting
    ensures var q' := Finish(RunBatch(q, batch, now, scripts));
            Canceled(q', [], id) && Starts(q', id) == Starts(q.(started := q.started + [batch[0]]), id)
  {
    var q0 := q.(started := q.started + [batch[0]]);
    StartApart(q, batch);
    ScriptCancels(q0, batch, scripts[0], k, id);
    CancelInCallbackRest(q, batch, now, scripts, id);
  }

  lemma StartApart(q: Queue, batch: seq<Id>)
    requires batch != [] && Apart(q, batch)
    ensures Apart(q.(started := q.started + [batch[0]]), batch)
  {
    var q0 := q.(started := q.started + [batch[0]]);
    forall x ensures Queued(q0, x) == Queued(q, x) { }
  }

  lemma CancelInCallbackRest(q: Queue, batch: seq<Id>, now: int, scripts: seq<seq<Act>>, id: Id)
    requires |scripts| == |batch| && batch != [] && batch[0] !in q.canceling
    requires var q0 := q.(started := q.started + [batch[0]]); var q2 := RunActs(q0, scripts[0]);
             Canceled(q2, batch, id) && q2.started == q0.started && Ordered(q2.timers)
    ensures var q' := Finish(RunBatch(q, batch, now, scripts));
            Canceled(q', [], id) && Starts(q', id) == Starts(q.(started := q.started + [batch[0]]), id)
  {
    var q2 := RunActs(q.(started := q.started + [batch[0]]), scripts[0]);
    AfterRunKeepsCanceled(q2, batch, id, now);
    var q3 := RunTimer(q, batch[0], now, scripts[0]);
    BatchKeepsCanceled(q3, batch[1..], now, scripts[1..], id);
    FinishKeepsCanceled(RunBatch(q3, batch[1..], now, scripts[1..]), id);
  }

  lemma BeginKeepsCanceled(q: Queue, now: int, id: Id)
    requires Idle(q) && Canceled(q, [], id)
    ensures Canceled(Begin(q, now), Batch(q, now), id) && Ordered(Begin(q, now).timers)
  {
    var k := ExpiredCount(q.timers, now);
    forall e | e in q.timers[k..] ensures e in q.timers { }
    forall x | x in Batch(q, now) ensures Queued(q, x) {
      var i :| 0 <= i < k && Batch(q, now)[i] == x;
      assert q.timers[i] in q.timers;
    }
  }

  lemma StepKeepsCanceled(q: Queue, e: Event, id: Id)
    requires Idle(q) && Legal(q, e) && Canceled(q, [], id)
    ensures Canceled(Step(q, e), [], id) && Starts(Step(q, e), id) == Starts(q, id)
  {
    match e
    case Allocated(t) => forall x ensures Queued(Allocate(q, t), x) == Queued(q, x) { }
    case AddTask(x) =>
      if x !in q.pending {
        UnqueuedInsert(q.(waiting := q.waiting - {x}), x, id);
      }
    case Call(a) => ActKeepsCanceled(q, [], a, id);
    case Expired(now, scripts) =>
      BeginKeepsCanceled(q, now, id);
      BatchKeepsCanceled(Begin(q, now), Batch(q, now), now, scripts, id);
      FinishKeepsCanceled(RunBatch(Begin(q, now), Batch(q, now), now, scripts), id);
  }

  /** Main result, across events: once canceled, a timer never starts again in the run. */
  lemma {:induction false} CanceledNeverStarts(t: Trace, m: nat, n: nat, id: Id)
    requires IsRun(t) && m <= n <= |t.events| && Canceled(t.states[m], [], id)
    ensures Canceled(t.states[n], [], id) && Starts(t.states[n], id) == Starts(t.states[m], id)
    decreases n
  {
    if m < n {
      CanceledNeverStarts(t, m, n - 1, id);
      RunIdle(t, n - 1);
      assert Link(t, n - 1);
      StepKeepsCanceled(t.states[n - 1], t.events[n - 1], id);
    }
  }

  /** The excluded case is real: a cancel from a callback of a timer still waiting to be
      added deletes it, and the add task then puts the deleted timer into the set. */
  lemma LateAddInsertsDeleted(q: Queue, id: Id)
    requires Linked(q) && q.calling && id in q.waiting && id in q.memory && id !in q.pending && !Queued(q, id)
    ensures var q1 := Finish(Cancel(q, id));
            q1.freed[id] > 0 && id in q1.waiting && id in q1.memory && Queued(Add(q1, id), id)
  {
    assert Entry(q.memory[id].expiration, id) !in q.timers;
    var q1 := Finish(Cancel(q, id));
    PurgedIs(q.timers, q.memory, q.canceling + {id});
    var q2 := q1.(waiting := q1.waiting - {id});
    InsertedIs(q2.timers, Entry(q2.memory[id].expiration, id));
    assert Entry(q2.memory[id].expiration, id) in Insert(q2, id).timers;
  }

  // ---- the same over whole runs ----

  lemma RestartApart(q: Queue, batch: seq<Id>, when: int)
    requires batch != [] && Apart(q, batch) && batch[0] in q.memory
    ensures Apart(Insert(q.(memory := q.memory[batch[0] := q.memory[batch[0]].(expiration := when)]), batch[0]), batch[1..])
  {
    var b := batch[0];
    BatchRest(batch);
    assert b in batch;
    var q2 := q.(memory := q.memory[b := q.memory[b].(expiration := when)]);
    forall x ensures Queued(q2, x) == Queued(q, x) { }
    forall e | e in q2.timers ensures e.id in q2.memory && q2.memory[e.id].expiration == e.expiration {
      assert Queued(q, e.id);
    }
    InsertApart(q2, batch[1..], b);
  }

  lemma FreeApart(q: Queue, batch: seq<Id>)
    requires batch != [] && Apart(q, batch)
    ensures Apart(q.(freed := q.freed + multiset{batch[0]}), batch[1..])
  {
    BatchRest(batch);
    var q2 := q.(freed := q.freed + multiset{batch[0]});
    forall x ensures Queued(q2, x) == Queued(q, x) { }
  }

  lemma AfterRunApart(q: Queue, batch: seq<Id>, now: int)
    requires batch != [] && Apart(q, batch)
    ensures Apart(AfterRun(q, batch[0], now), batch[1..])
  {
    assert batch[0] in batch;
    RestartApart(q, batch, now + q.memory[batch[0]].interval);
    FreeApart(q, batch);
  }

  lemma TurnApart(q: Queue, batch: seq<Id>, now: int, acts: seq<Act>)
    requires batch != [] && Apart(q, batch) && q.calling
    requires batch[0] !in q.canceling ==> LegalActs(q.(started := q.started + [batch[0]]), acts)
    ensures var q' := RunTimer(q, batch[0], now, acts); Apart(q', batch[1..]) && q'.calling
  {
    if batch[0] in q.canceling {
      AfterRunApart(q, batch, now);
    } else {
      var q0 := q.(started := q.started + [batch[0]]);
      StartApart(q, batch);
      ActsApart(q0, batch, acts);
      AfterRunApart(RunActs(q0, acts), batch, now);
    }
  }

  /** The batch can be cut anywhere; the queue at the cut keeps everything apart. */
  lemma {:induction false} CutBatch(q: Queue, batch: seq<Id>, now: int, scripts: seq<seq<Act>>, j: nat)
    requires |scripts| == |batch| && j <= |batch| && Apart(q, batch) && q.calling && LegalBatch(q, batch, now, scripts)
    ensures var q' := RunBatch(q, batch[..j], now, scripts[..j]);
            && Apart(q', batch[j..]) && q'.calling && LegalBatch(q', batch[j..], now, scripts[j..])
            && RunBatch(q, batch, now, scripts) == RunBatch(q', batch[j..], now, scripts[j..])
    decreases j
  {
    if j == 0 {
      assert batch[0..] == batch && scripts[0..] == scripts && batch[..0] == [];
    } else {
      TurnApart(q, batch, now, scripts[0]);
      CutBatch(RunTimer(q, batch[0], now, scripts[0]), batch[1..], now, scripts[1..], j - 1);
      RestOfCut(batch, j);
      RestOfCut(scripts, j);
    }
  }

  lemma RestOfCut<T>(s: seq<T>, j: nat)
    requires 0 < j <= |s|
    ensures s[..j][0] == s[0] && s[..j][1..] == s[1..][..j - 1] && s[1..][j - 1..] == s[j..]
  { }

  lemma BeginApart(q: Queue, now: int)
    requires Apart(q, [])
    ensures Apart(Begin(q, now), Batch(q, now))
  {
    var k := ExpiredCount(q.timers, now);
    var q' := Begin(q, now);
    var batch := Batch(q, now);
    forall i, j | 0 <= i < j < |batch| ensures batch[i] != batch[j] {
      DifferentIds(q, i, j);
    }
    forall x ensures One(Queued(q', x)) + One(x in batch) == One(Queued(q, x)) { TakenOrLeft(q, k, x); }
    forall e | e in q'.timers ensures e in q.timers { }
    forall x | x in batch ensures x in q.memory {
      var i :| 0 <= i < |batch| && batch[i] == x;
      assert q.timers[i] in q.timers;
    }
  }

  lemma FinishApart(q: Queue)
    requires Apart(q, [])
    ensures Apart(Finish(q), [])
  {
    PurgedIs(q.timers, q.memory, q.canceling);
    var q' := Finish(q);
    forall x ensures Queued(q', x) ==> Queued(q, x) { }
    forall x | Queued(q, x) && x !in q.canceling ensures Queued(q', x) {
      var e :| e in q.timers && e.id == x;
      assert e in q'.timers;
    }
  }

  lemma AddTaskApart(q: Queue, id: Id)
    requires Apart(q, []) && id in q.waiting
    ensures Apart(Add(q, id), [])
  {
    var q1 := q.(waiting := q.waiting - {id});
    forall x ensures Queued(q1, x) == Queued(q, x) { }
    if id in q.pending {
      var q' := Add(q, id);
      forall x ensures Queued(q', x) == Queued(q, x) { }
    } else {
      InsertApart(q1, [], id);
    }
  }

  lemma StepApart(q: Queue, e: Event)
    requires Idle(q) && Apart(q, []) && Legal(q, e)
    ensures Apart(Step(q, e), [])
  {
    match e
    case Allocated(t) => forall x ensures Queued(Allocate(q, t), x) == Queued(q, x) { }
    case AddTask(id) => AddTaskApart(q, id);
    case Call(a) => ActApart(q, [], a);
    case Expired(now, scripts) =>
      BeginApart(q, now);
      var n := |scripts|;
      var batch := Batch(q, now);
      CutBatch(Begin(q, now), batch, now, scripts, n);
      assert batch[..n] == batch && scripts[..n] == scripts && batch[n..] == [];
      FinishApart(RunBatch(Begin(q, now), batch, now, scripts));
  }

  lemma {:induction false} RunApart(t: Trace, n: nat)
    requires IsRun(t) && n <= |t.events|
    ensures Idle(t.states[n]) && Apart(t.states[n], [])
  {
    if n == 0 {
      NewOwned();
    } else {
      RunApart(t, n - 1);
      assert Link(t, n - 1);
      StepIdle(t.states[n - 1], t.events[n - 1]);
      StepApart(t.states[n - 1], t.events[n - 1]);
    }
  }

  /** Main result: on every run, once a cancel from outside the callbacks is processed,
      its timer never starts again. */
  lemma CanceledBetweenEvents(t: Trace, m: nat, n: nat, id: Id)
    requires IsRun(t) && m < n <= |t.events| && t.events[m] == Call(CancelTimer(id))
    ensures Canceled(t.states[n], [], id) && Starts(t.states[n], id) == Starts(t.states[m], id)
  {
    RunApart(t, m);
    assert Link(t, m);
    CancelTakes(t.states[m], [], id);
    CanceledNeverStarts(t, m + 1, n, id);
  }

  /** The queue as the `j`-th expired timer's callback is about to run. */
  function AtTurn(q: Queue, now: int, scripts: seq<seq<Act>>, j: nat): Queue
    requires |scripts| == |Batch(q, now)| && j < |scripts|
  {
    var q' := RunBatch(Begin(q, now), Batch(q, now)[..j], now, scripts[..j]);
    q'.(started := q'.started + [Batch(q, now)[j]])
  }

  /** Main result: on every run, once step `k` of the `j`-th callback of event `m` has
      canceled a timer that is not still waiting to be added, that timer never starts
      again, in this batch or later. */
  lemma CanceledInCallback(t: Trace, m: nat, j: nat, k: nat, n: nat, id: Id)
    requires IsRun(t) && m < n <= |t.events| && t.events[m].Expired?
    requires |t.events[m].scripts| == |Batch(t.states[m], t.events[m].now)| && j < |t.events[m].scripts|
    requires var e := t.events[m]; var q := AtTurn(t.states[m], e.now, e.scripts, j);
             && Batch(t.states[m], e.now)[j] !in q.canceling
             && k < |e.scripts[j]| && e.scripts[j][k] == CancelTimer(id)
             && id !in RunActs(q, e.scripts[j][..k]).waiting
    ensures Canceled(t.states[n], [], id)
    ensures Starts(t.states[n], id) == Starts(AtTurn(t.states[m], t.events[m].now, t.events[m].scripts, j), id)
  {
    var q, e := t.states[m], t.events[m];
    RunApart(t, m);
    assert Link(t, m);
    CancelAtTurn(q, e.now, e.scripts, j, k, id);
    CanceledNeverStarts(t, m + 1, n, id);
  }

  lemma CancelAtTurn(q: Queue, now: int, scripts: seq<seq<Act>>, j: nat, k: nat, id: Id)
    requires Apart(q, []) && |scripts| == |Batch(q, now)| && j < |scripts|
    requires LegalBatch(Begin(q, now), Batch(q, now), now, scripts)
    requires var q' := AtTurn(q, now, scripts, j);
             && Batch(q, now)[j] !in q'.canceling
             && k < |scripts[j]| && scripts[j][k] == CancelTimer(id)
             && id !in RunActs(q', scripts[j][..k]).waiting
    ensures Canceled(Expire(q, now, scripts), [], id)
    ensures Starts(Expire(q, now, scripts), id) == Starts(AtTurn(q, now, scripts, j), id)
  {
    var batch := Batch(q, now);
    BeginApart(q, now);
    CutBatch(Begin(q, now), batch, now, scripts, j);
    var q' := RunBatch(Begin(q, now), batch[..j], now, scripts[..j]);
    assert batch[j..][0] == batch[j] && scripts[j..][0] == scripts[j];
    CancelInCallback(q', batch[j..], now, scripts[j..], k, id);
  }
}
