/**
 * The dispatch engine as a class: task objects shared between the queue and the index by id,
 * both changed in place. Its methods are the segments of code between two awaits, and each
 * does exactly the step of DispatchSteps.dfy.
 */
module DispatchEngine {
  import opened Options
  import opened DispatchSteps

  class HookTask {
    const id: TaskId
    const coalesce: Coalesce
    var event: Event
    var enqueuedAt: int
    var coalesceKey: Option<Key>
    var mergedCount: nat

    constructor (o: Offer)
      ensures AsOffer() == o && coalesceKey == None && mergedCount == 0
    {
      id, coalesce, event, enqueuedAt := o.id, o.coalesce, o.event, o.enqueuedAt;
      coalesceKey, mergedCount := None, 0;
    }

    ghost function AsOffer(): Offer
      reads this
    {
      Offer(id, event, enqueuedAt, coalesce)
    }

    ghost function View(): Task
      reads this
    {
      Task(id, event, enqueuedAt, coalesceKey, mergedCount)
    }
  }

  ghost function Views(queue: seq<HookTask>): seq<Task>
    reads queue
  {
    seq(|queue|, i requires 0 <= i < |queue| reads queue => queue[i].View())
  }

  /** The index by id holds exactly the queued task objects. */
  ghost predicate Indexes(byId: map<TaskId, HookTask>, queue: seq<HookTask>)
  {
    && (forall i :: 0 <= i < |queue| ==> queue[i].id in byId && byId[queue[i].id] == queue[i])
    && (forall id :: id in byId ==> byId[id] in queue && byId[id].id == id)
  }

  class HookBridgeDispatchEngine {
    const config: Config
    var queue: seq<HookTask>
    var queuedTaskById: map<TaskId, HookTask>
    var queuedTaskIdByCoalesceKey: map<Key, TaskId>
    var runningWorkers: nat
    var drainResolvers: seq<nat>
    ghost var offered: seq<TaskId>
    ghost var started: seq<TaskId>
    ghost var dropped: set<TaskId>
    ghost var merged: set<TaskId>

    ghost function View(): Engine
      reads this, queue
    {
      Engine(Views(queue), queuedTaskIdByCoalesceKey, runningWorkers, drainResolvers, offered, started, dropped, merged)
    }

    ghost predicate Valid()
      reads this, queue
    {
      && Indexes(queuedTaskById, queue)
      && (forall i, j :: 0 <= i < j < |queue| ==> queue[i].id != queue[j].id)
    }

    constructor (config: Config)
      ensures Valid() && View() == EMPTY && this.config == config
    {
      this.config := config;
      queue, queuedTaskById, queuedTaskIdByCoalesceKey := [], map[], map[];
      runningWorkers, drainResolvers := 0, [];
      offered, started, dropped, merged := [], [], {}, {};
    }

    // -------------------------------------------------------------- queue

    /** Removes the head of the queue from the queue and both indexes. */
    method Shift() returns (task: HookTask)
      requires Valid() && queue != []
      modifies this`queue, this`queuedTaskById, this`queuedTaskIdByCoalesceKey
      ensures Valid() && task == old(queue)[0] && queue == old(queue)[1..]
      ensures queuedTaskIdByCoalesceKey == Unindex(old(queuedTaskIdByCoalesceKey), task.View())
    {
      task := queue[0];
      queue := queue[1..];
      queuedTaskById := queuedTaskById - {task.id};
      if task.coalesceKey.Some? && task.coalesceKey.value in queuedTaskIdByCoalesceKey
         && queuedTaskIdByCoalesceKey[task.coalesceKey.value] == task.id {
        queuedTaskIdByCoalesceKey := queuedTaskIdByCoalesceKey - {task.coalesceKey.value};
      }
    }

    /** Merges the task into a queued one with the same key, or remembers its key. */
    method TryCoalesceTask(task: HookTask, now: int) returns (coalesced: bool)
      requires Valid() && task !in queue && task.coalesceKey == None
      modifies this`queuedTaskIdByCoalesceKey, this`merged, task`coalesceKey, queue
      ensures Valid() && unchanged(`queue)
      ensures var e, o := old(View()), old(task.AsOffer());
        var target := MergeTarget(e, o, now);
        && coalesced == target.Some?
        && View() == (if target.Some? then Merge(e, o, target.value) else ForgetEntry(e, o))
        && task.coalesceKey == if coalesced then None else OfferedKey(o)
    {
      hide Indexes, Find;
      if task.coalesce.Off? || task.coalesce.key.None? {
        return false;
      }
      var key := task.coalesce.key.value;
      if key !in queuedTaskIdByCoalesceKey {
        task.coalesceKey := Some(key);
        assert Views(queue) == old(Views(queue));
        return false;
      }
      var queuedTaskId := queuedTaskIdByCoalesceKey[key];
      ghost var i := Find(Views(queue), queuedTaskId);
      FindIndexed(queue, queuedTaskById, queuedTaskId);
      if queuedTaskId !in queuedTaskById || now - queuedTaskById[queuedTaskId].enqueuedAt > task.coalesce.windowMs {
        queuedTaskIdByCoalesceKey := queuedTaskIdByCoalesceKey - {key};
        task.coalesceKey := Some(key);
        assert Views(queue) == old(Views(queue));
        return false;
      }
      var existing := queuedTaskById[queuedTaskId];
      if task.coalesce.keepLatest {
        existing.event := task.event;
        existing.enqueuedAt := task.enqueuedAt;
      }
      existing.mergedCount := existing.mergedCount + 1;
      merged := merged + {task.id};
      assert Views(queue) == old(Views(queue))[i := existing.View()];
      return true;
    }

    lemma FindIndexed(queue: seq<HookTask>, byId: map<TaskId, HookTask>, id: TaskId)
      requires Indexes(byId, queue)
      ensures var i := Find(Views(queue), id); if id in byId then i < |queue| && queue[i] == byId[id] else i == |queue|
    {
      var i := Find(Views(queue), id);
      if id in byId {
        var j :| 0 <= j < |queue| && queue[j] == byId[id];
        assert Views(queue)[j].id == id;
      }
      if i < |queue| {
        assert Views(queue)[i].id == id;
        assert queue[i].id in byId;
      }
    }

    method EnqueueTask(task: HookTask, now: int)
      requires Valid() && task !in queue && task.coalesceKey == None && task.mergedCount == 0
      requires forall i :: 0 <= i < |queue| ==> queue[i].id != task.id
      modifies this, task`coalesceKey, queue
      ensures Valid() && View() == Enqueue(old(View()), old(task.AsOffer()), now, config)
    {
      hide Pump, MergeTarget, Merge, ForgetEntry, Unindex;
      ghost var o := task.AsOffer();
      offered := offered + [task.id];
      ghost var e := View();
      assert MergeTarget(e, o, now) == MergeTarget(old(View()), o, now) by { TargetIgnoresHistory(old(View()), e, o, now); }
      var coalesced := TryCoalesceTask(task, now);
      if coalesced {
        return;
      }
      if |queue| >= config.maxPending {
        if config.policy.DropNewest? {
          dropped := dropped + {task.id};
          return;
        }
        if queue != [] {
          DropOldest();
        }
      }
      PushTask(task, o);
      PumpWorkers();
    }

    lemma TargetIgnoresHistory(d: Engine, e: Engine, o: Offer, now: int)
      requires d.queue == e.queue && d.byKey == e.byKey
      ensures MergeTarget(d, o, now) == MergeTarget(e, o, now)
    {
    }

    method DropOldest()
      requires Valid() && queue != []
      modifies this`queue, this`queuedTaskById, this`queuedTaskIdByCoalesceKey, this`dropped
      ensures Valid() && View() == DropHead(old(View())) && queue == old(queue)[1..]
    {
      hide Unindex, Indexes;
      var task := Shift();
      dropped := dropped + {task.id};
      assert Views(queue) == old(Views(queue))[1..];
    }

    method PushTask(task: HookTask, ghost o: Offer)
      requires Valid() && task !in queue && task.AsOffer() == o && task.mergedCount == 0
      requires task.coalesceKey == OfferedKey(o)
      requires forall i :: 0 <= i < |queue| ==> queue[i].id != task.id
      modifies this`queue, this`queuedTaskById, this`queuedTaskIdByCoalesceKey
      ensures Valid() && View() == Push(old(View()), o)
    {
      queue := queue + [task];
      queuedTaskById := queuedTaskById[task.id := task];
      if task.coalesceKey.Some? {
        queuedTaskIdByCoalesceKey := queuedTaskIdByCoalesceKey[task.coalesceKey.value := task.id];
      }
      assert Views(queue) == old(Views(queue)) + [task.View()];
    }

    // -------------------------------------------------------------- workers

    /** A worker takes the next task and starts its action. */
    method TakeTask()
      requires Valid() && queue != []
      modifies this`queue, this`queuedTaskById, this`queuedTaskIdByCoalesceKey, this`started
      ensures Valid() && View() == TakeNext(old(View())) && queue == old(queue)[1..]
    {
      hide Unindex, Indexes;
      var task := Shift();
      started := started + [task.id];
      assert Views(queue) == old(Views(queue))[1..];
    }

    method PumpWorkers()
      requires Valid()
      modifies this`queue, this`queuedTaskById, this`queuedTaskIdByCoalesceKey, this`started, this`runningWorkers, this`drainResolvers
      ensures Valid() && View() == Pump(old(View()), config)
    {
      hide TakeNext, Indexes;
      while runningWorkers < config.concurrency && queue != []
        invariant Valid() && Pump(View(), config) == Pump(old(View()), config)
        invariant unchanged(`drainResolvers)
        decreases |queue|
      {
        runningWorkers := runningWorkers + 1;
        TakeTask();
      }
      ResolveDrainIfIdle();
    }

    method ResolveDrainIfIdle()
      modifies this`drainResolvers
      ensures View() == ResolveDrain(old(View()))
    {
      if runningWorkers != 0 || queue != [] {
        return;
      }
      drainResolvers := [];
    }

    /** The action of one worker's task is over. */
    method OnTaskFinished()
      requires Valid() && runningWorkers > 0
      modifies this`queue, this`queuedTaskById, this`queuedTaskIdByCoalesceKey, this`started, this`runningWorkers, this`drainResolvers
      ensures Valid() && View() == Finish(old(View()), config)
    {
      hide Pump, TakeNext;
      if queue != [] {
        TakeTask();
      } else {
        runningWorkers := runningWorkers - 1;
        PumpWorkers();
      }
    }

    /** Whether the drain is over at once; otherwise the waiter is remembered. */
    method Stop(waiter: nat) returns (drained: bool)
      requires Valid()
      modifies this`queue, this`queuedTaskById, this`queuedTaskIdByCoalesceKey, this`started, this`runningWorkers, this`drainResolvers
      ensures Valid() && View() == DispatchSteps.Stop(old(View()), waiter, config)
      ensures drained == (runningWorkers == 0 && queue == [])
    {
      hide Pump;
      PumpWorkers();
      drained := runningWorkers == 0 && queue == [];
      if !drained {
        drainResolvers := drainResolvers + [waiter];
      }
    }
  }
}
