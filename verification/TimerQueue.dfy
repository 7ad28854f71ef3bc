/** The timer queue as the loop thread runs it, each operation proved to make exactly the
    step that the properties are proved about. */
module TimerQueue {
  import opened Common
  import opened TimerSpec
  import opened TimerProofs

  /** Every pointer held by the set or the cancel list is to an allocated timer. */
  ghost predicate Known(q: Queue) {
    && Ordered(q.timers)
    && (forall e | e in q.timers :: e.id in q.memory)
    && (forall id | id in q.canceling :: id in q.memory)
  }

  lemma InsertKnown(q: Queue, id: Id)
    requires Known(q) && id in q.memory
    ensures Known(Insert(q, id)) && Insert(q, id).memory == q.memory
  {
    InsertedIs(q.timers, Entry(q.memory[id].expiration, id));
  }

  lemma CancelKnown(q: Queue, id: Id)
    requires Known(q) && id in q.memory
    ensures Known(Cancel(q, id)) && Cancel(q, id).memory == q.memory
  {
    ErasedIs(q.timers, Entry(q.memory[id].expiration, id));
  }

  /** Deleting one more canceled timer purges one more entry. */
  lemma {:induction false} PurgedMore(ts: seq<Entry>, memory: map<Id, Timer>, gone: set<Id>, id: Id)
    requires id in memory && id !in gone
    ensures Purged(ts, memory, gone + {id}) == Erased(Purged(ts, memory, gone), Entry(memory[id].expiration, id))
    decreases |ts|
  {
    if ts != [] {
      PurgedMore(ts[1..], memory, gone, id);
      var e := Entry(memory[id].expiration, id);
      var rest := Purged(ts[1..], memory, gone);
      assert ([ts[0]] + rest)[1..] == rest;
      if ts[0] == e {
        assert Purged(ts, memory, gone + {id}) == Purged(ts[1..], memory, gone + {id});
      }
    }
  }

  lemma {:induction false} PurgedNothing(ts: seq<Entry>, memory: map<Id, Timer>)
    ensures Purged(ts, memory, {}) == ts
    decreases |ts|
  {
    if ts != [] { PurgedNothing(ts[1..], memory); }
  }

  lemma {:induction false} ErasedAbsent(ts: seq<Entry>, e: Entry)
    requires e !in ts
    ensures Erased(ts, e) == ts
    decreases |ts|
  {
    if ts != [] {
      assert ts[0] in ts && forall x | x in ts[1..] :: x in ts;
      ErasedAbsent(ts[1..], e);
    }
  }

  lemma IdsSnoc(ts: seq<Entry>, i: nat)
    requires i < |ts|
    ensures multiset(Ids(ts[..i + 1])) == multiset(Ids(ts[..i])) + multiset{ts[i].id}
  {
    assert ts[..i + 1] == ts[..i] + [ts[i]];
    assert Ids(ts[..i + 1]) == Ids(ts[..i]) + [ts[i].id];
  }

  lemma OneMore(done: set<Id>, id: Id)
    requires id !in done
    ensures multiset(done + {id}) == multiset(done) + multiset{id}
  { }

  lemma ActsNext(q: Queue, acts: seq<Act>, i: nat)
    requires i < |acts|
    ensures RunActs(q, acts[i..]) == RunActs(RunAct(q, acts[i]), acts[i + 1..])
  {
    assert acts[i..][1..] == acts[i + 1..];
  }

  lemma BatchNext(q: Queue, batch: seq<Id>, now: int, scripts: seq<seq<Act>>, i: nat)
    requires i < |batch| == |scripts|
    ensures RunBatch(q, batch[i..], now, scripts[i..])
            == RunBatch(RunTimer(q, batch[i], now, scripts[i]), batch[i + 1..], now, scripts[i + 1..])
  {
    assert batch[i..][1..] == batch[i + 1..] && scripts[i..][1..] == scripts[i + 1..];
  }

  lemma OneMoreFreed(a: multiset<Id>, b: multiset<Id>, id: Id)
    ensures a + b + multiset{id} == a + (b + multiset{id})
  { }

  class TimerQueue {
    var timers: seq<Entry>
    var pending: set<Id>
    var canceling: set<Id>
    var calling: bool
    var armed: Option<int>
    // The heap the queue allocates from, the loop's queued add tasks, and what happened.
    var memory: map<Id, Timer>
    var waiting: set<Id>
    var freed: multiset<Id>
    var started: seq<Id>
    var nextId: Id

    ghost function State(): Queue
      reads this
    {
      Queue(timers, memory, waiting, pending, canceling, calling, armed, freed, started, nextId)
    }

    ghost predicate Valid()
      reads this
    {
      Known(State())
    }

    constructor ()
      ensures Valid() && State() == NEW
    {
      timers, memory, waiting, pending, canceling := [], map[], {}, {}, {};
      calling, armed, freed, started, nextId := false, None, multiset{}, [], 0;
    }

    method ResetTimerfd(expiration: int)
      modifies this`armed
      ensures armed == Some(expiration)
    {
      armed := Some(expiration);
    }

    /** `add_timer`, up to handing the add task to the loop. */
    method Allocate(t: Timer) returns (id: Id)
      requires Valid()
      modifies this`memory, this`waiting, this`nextId
      ensures Valid() && id == old(nextId) && State() == TimerSpec.Allocate(old(State()), t)
    {
      id := nextId;
      memory, waiting, nextId := memory[id := t], waiting + {id}, nextId + 1;
    }

    method Insert(id: Id)
      requires Valid() && id in memory
      modifies this`timers, this`armed
      ensures Valid() && State() == TimerSpec.Insert(old(State()), id)
    {
      InsertKnown(State(), id);
      var when := memory[id].expiration;
      var earliestChanged := timers == [] || when < timers[0].expiration;
      timers := Inserted(timers, Entry(when, id));
      if earliestChanged {
        ResetTimerfd(when);
      }
    }

    method AddTimerInLoop(id: Id)
      requires Valid() && id in memory
      modifies this
      ensures Valid() && State() == Add(old(State()), id)
    {
      waiting := waiting - {id};
      if id in pending {
        pending := pending - {id};
        freed := freed + multiset{id};
        return;
      }
      Insert(id);
    }

    method CancelInLoop(id: Id)
      requires Valid() && id in memory
      modifies this
      ensures Valid() && State() == Cancel(old(State()), id)
    {
      CancelKnown(State(), id);
      var entry := Entry(memory[id].expiration, id);
      if entry !in timers {
        if calling {
          canceling := canceling + {id};
        } else {
          pending := pending + {id};
        }
        return;
      }
      var earliest := timers[0] == entry;
      timers := Erased(timers, entry);
      if calling {
        canceling := canceling + {id};
      } else {
        freed := freed + multiset{id};
        if earliest && timers != [] {
          ResetTimerfd(timers[0].expiration);
        }
      }
    }

    method GetExpired(when: int) returns (expired: seq<Id>)
      requires Valid()
      modifies this`timers
      ensures Valid() && expired == Ids(old(timers)[..ExpiredCount(old(timers), when)])
      ensures timers == old(timers)[ExpiredCount(old(timers), when)..]
    {
      expired := [];
      ghost var all := timers;
      ghost var k := 0;
      while timers != [] && timers[0].expiration <= when
        invariant k <= |all| && timers == all[k..] && expired == Ids(all[..k])
        invariant ExpiredCount(all, when) == k + ExpiredCount(timers, when)
        decreases |timers|
      {
        expired := expired + [timers[0].id];
        timers := timers[1..];
        k := k + 1;
      }
      assert forall e | e in timers :: e in all;
    }

    /** What a timer callback does to the queue, one call after the other. */
    method RunCallback(id: Id, acts: seq<Act>)
      requires Valid()
      modifies this
      ensures Valid() && State() == RunActs(old(State()).(started := old(started) + [id]), acts)
      ensures forall x | x in old(memory) :: x in memory
    {
      started := started + [id];
      ghost var q := State();
      var i := 0;
      while i < |acts|
        invariant 0 <= i <= |acts| && Valid()
        invariant RunActs(State(), acts[i..]) == RunActs(q, acts)
        invariant forall x | x in old(memory) :: x in memory
      {
        ActsNext(State(), acts, i);
        Perform(acts[i]);
        i := i + 1;
      }
    }

    method Perform(act: Act)
      requires Valid()
      modifies this
      ensures Valid() && State() == RunAct(old(State()), act)
      ensures forall x | x in old(memory) :: x in memory
    {
      match act {
        case Create(t) =>
          var id := Allocate(t);
          AddTimerInLoop(id);
        case CancelTimer(x) =>
          if x in memory {
            CancelInLoop(x);
          }
      }
    }

    /** One expired timer's turn in `handle_read`. */
    method RunExpired(id: Id, now: int, acts: seq<Act>)
      requires Valid() && id in memory
      modifies this
      ensures Valid() && State() == RunTimer(old(State()), id, now, acts)
      ensures forall x | x in old(memory) :: x in memory
    {
      if id !in canceling {
        RunCallback(id, acts);
      }
      if memory[id].repeat && id !in canceling {
        memory := memory[id := memory[id].(expiration := now + memory[id].interval)];
        Insert(id);
      } else {
        freed := freed + multiset{id};
      }
    }

    /** The callbacks of one batch, in order. */
    method RunAll(expired: seq<Id>, now: int, scripts: seq<seq<Act>>)
      requires Valid() && |scripts| == |expired|
      requires forall id | id in expired :: id in memory
      modifies this
      ensures Valid() && State() == RunBatch(old(State()), expired, now, scripts)
    {
      ghost var q := State();
      var i := 0;
      while i < |expired|
        invariant 0 <= i <= |expired| && Valid()
        invariant RunBatch(State(), expired[i..], now, scripts[i..]) == RunBatch(q, expired, now, scripts)
        invariant forall id | id in expired :: id in memory
      {
        BatchNext(State(), expired, now, scripts, i);
        RunExpired(expired[i], now, scripts[i]);
        i := i + 1;
      }
    }

    method EraseCanceled(id: Id)
      requires id in memory
      modifies this`timers
      ensures timers == Erased(old(timers), Entry(memory[id].expiration, id))
    {
      var entry := Entry(memory[id].expiration, id);
      if entry in timers {
        timers := Erased(timers, entry);
      } else {
        ErasedAbsent(timers, entry);
      }
    }

    /** The deletions after the batch, in whatever order the cancel list is visited. */
    method DeleteCanceled()
      requires Valid()
      modifies this`timers, this`freed, this`canceling
      ensures Valid() && canceling == {}
      ensures timers == Purged(old(timers), memory, old(canceling))
      ensures freed == old(freed) + multiset(old(canceling))
    {
      var left := canceling;
      ghost var done: set<Id> := {};
      PurgedNothing(timers, memory);
      while left != {}
        modifies this`timers, this`freed
        invariant done + left == canceling && done !! left
        invariant timers == Purged(old(timers), memory, done)
        invariant freed == old(freed) + multiset(done)
        decreases |left|
      {
        var id :| id in left;
        PurgedMore(old(timers), memory, done, id);
        OneMore(done, id);
        EraseCanceled(id);
        freed := freed + multiset{id};
        left := left - {id};
        done := done + {id};
      }
      PurgedIs(old(timers), memory, canceling);
      assert done == canceling;
      canceling := {};
    }

    /** The descriptor is readable; `scripts[k]` is what the callback of the `k`-th expired timer does. */
    method HandleRead(now: int, scripts: seq<seq<Act>>)
      requires Valid() && |scripts| == |Batch(State(), now)|
      modifies this
      ensures Valid() && State() == Expire(old(State()), now, scripts)
    {
      ghost var q := State();
      var expired := GetExpired(now);
      calling := true;
      BatchKnown(q, now);
      assert State() == Begin(q, now);
      RunAll(expired, now, scripts);
      FinishBatch();
    }

    /** The end of `handle_read`: delete what was canceled meanwhile and re-arm. */
    method FinishBatch()
      requires Valid()
      modifies this
      ensures Valid() && State() == Finish(old(State()))
    {
      calling := false;
      DeleteCanceled();
      if timers != [] {
        ResetTimerfd(timers[0].expiration);
      }
    }

    /** The destructor. */
    method Destroy()
      requires Valid()
      modifies this
      ensures State() == Destroyed(old(State()))
    {
      ghost var q := State();
      DeleteQueued();
      assert State() == q.(freed := q.freed + multiset(Ids(q.timers)));
      freed := freed + multiset(pending) + multiset(canceling);
      timers, pending, canceling := [], {}, {};
    }

    method DeleteQueued()
      modifies this`freed
      ensures freed == old(freed) + multiset(Ids(timers))
    {
      ghost var before := freed;
      var i := 0;
      while i < |timers|
        invariant 0 <= i <= |timers|
        invariant freed == before + multiset(Ids(timers[..i]))
      {
        IdsSnoc(timers, i);
        OneMoreFreed(before, multiset(Ids(timers[..i])), timers[i].id);
        freed := freed + multiset{timers[i].id};
        i := i + 1;
      }
      assert timers[..i] == timers;
    }
  }

  lemma BatchKnown(q: Queue, now: int)
    requires Known(q)
    ensures forall x | x in Batch(q, now) :: x in q.memory
  {
    forall x | x in Batch(q, now) ensures x in q.memory {
      var i :| 0 <= i < |Batch(q, now)| && Batch(q, now)[i] == x;
      assert q.timers[i] in q.timers;
    }
  }
}
