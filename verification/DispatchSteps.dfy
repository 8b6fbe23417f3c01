/**
 * The hook bridge's dispatch engine as a transition system: a bounded queue with coalescing
 * and drop policies, a pool of workers, and waiters for the queue to drain.
 */
module DispatchSteps {
  import opened Options

  type TaskId = nat
  type Key = string
  type Event = nat  // an opaque event

  /** Whether and how a rule merges tasks; the key is absent when none of its fields has a value. */
  datatype Coalesce = Off | On(key: Option<Key>, windowMs: int, keepLatest: bool)

  /** A task as it is offered to the engine. */
  datatype Offer = Offer(id: TaskId, event: Event, enqueuedAt: int, coalesce: Coalesce)

  /** A task in the queue. */
  datatype Task = Task(id: TaskId, event: Event, enqueuedAt: int, key: Option<Key>, mergedCount: nat)

  datatype DropPolicy = DropOldest | DropNewest

  datatype Config = Config(maxPending: nat, concurrency: nat, policy: DropPolicy)

  /** The state, with the history of what happened to every offered task. */
  datatype Engine = Engine(
    queue: seq<Task>, byKey: map<Key, TaskId>, running: nat, waiters: seq<nat>,
    offered: seq<TaskId>, started: seq<TaskId>, dropped: set<TaskId>, merged: set<TaskId>)

  const EMPTY := Engine([], map[], 0, [], [], [], {}, {})

  function Ids(queue: seq<Task>): seq<TaskId> {
    seq(|queue|, i requires 0 <= i < |queue| => queue[i].id)
  }

  // ---------------------------------------------------------------- coalescing

  /** The position of the queued task with the id, or the queue's length. */
  function Find(queue: seq<Task>, id: TaskId): (i: nat)
    ensures i <= |queue|
    ensures i < |queue| ==> queue[i].id == id
    ensures forall j :: 0 <= j < i ==> queue[j].id != id
  {
    if queue == [] || queue[0].id == id then 0 else 1 + Find(queue[1..], id)
  }

  function OfferedKey(o: Offer): Option<Key> {
    if o.coalesce.On? then o.coalesce.key else None
  }

  /** The queued task that the offer is merged into. */
  function MergeTarget(e: Engine, o: Offer, now: int): Option<nat> {
    var key := OfferedKey(o);
    if key.None? || key.value !in e.byKey then None
    else
      var i := Find(e.queue, e.byKey[key.value]);
      if i == |e.queue| || now - e.queue[i].enqueuedAt > o.coalesce.windowMs then None else Some(i)
  }

  function Merge(e: Engine, o: Offer, i: nat): Engine
    requires i < |e.queue| && o.coalesce.On?
  {
    var t := e.queue[i];
    var kept := if o.coalesce.keepLatest then t.(event := o.event, enqueuedAt := o.enqueuedAt) else t;
    e.(queue := e.queue[i := kept.(mergedCount := t.mergedCount + 1)], merged := e.merged + {o.id})
  }

  // ---------------------------------------------------------------- queue and workers

  /** The key index without the entry of a task that leaves the queue. */
  function Unindex(byKey: map<Key, TaskId>, t: Task): map<Key, TaskId> {
    if t.key.Some? && t.key.value in byKey && byKey[t.key.value] == t.id then byKey - {t.key.value} else byKey
  }

  function DropHead(e: Engine): Engine
    requires e.queue != []
  {
    e.(queue := e.queue[1..], byKey := Unindex(e.byKey, e.queue[0]), dropped := e.dropped + {e.queue[0].id})
  }

  /** A worker takes the next task. */
  function TakeNext(e: Engine): Engine
    requires e.queue != []
  {
    e.(queue := e.queue[1..], byKey := Unindex(e.byKey, e.queue[0]), started := e.started + [e.queue[0].id])
  }

  function ResolveDrain(e: Engine): Engine {
    if e.running == 0 && e.queue == [] then e.(waiters := []) else e
  }

  function Pump(e: Engine, c: Config): Engine
    decreases |e.queue|
  {
    if e.running < c.concurrency && e.queue != [] then Pump(TakeNext(e.(running := e.running + 1)), c)
    else ResolveDrain(e)
  }

  function Push(e: Engine, o: Offer): Engine {
    var key := OfferedKey(o);
    e.(queue := e.queue + [Task(o.id, o.event, o.enqueuedAt, key, 0)],
       byKey := if key.Some? then e.byKey[key.value := o.id] else e.byKey)
  }

  /** An entry that did not lead to a merge is taken out before the task is queued. */
  function ForgetEntry(e: Engine, o: Offer): Engine {
    var key := OfferedKey(o);
    if key.Some? && key.value in e.byKey then e.(byKey := e.byKey - {key.value}) else e
  }

  function Enqueue(e: Engine, o: Offer, now: int, c: Config): Engine {
    var offered := e.(offered := e.offered + [o.id]);
    var target := MergeTarget(e, o, now);
    if target.Some? then Merge(offered, o, target.value)
    else
      var unindexed := ForgetEntry(offered, o);
      if |unindexed.queue| >= c.maxPending && c.policy.DropNewest? then unindexed.(dropped := unindexed.dropped + {o.id})
      else
        var room := if |unindexed.queue| >= c.maxPending && unindexed.queue != [] then DropHead(unindexed) else unindexed;
        Pump(Push(room, o), c)
  }

  /** A worker's action is over: it takes the next task, or ends and lets the pool refill. */
  function Finish(e: Engine, c: Config): Engine
    requires e.running > 0
  {
    if e.queue != [] then TakeNext(e) else Pump(e.(running := e.running - 1), c)
  }

  function Stop(e: Engine, waiter: nat, c: Config): Engine {
    var pumped := Pump(e, c);
    if pumped.running == 0 && pumped.queue == [] then pumped else pumped.(waiters := pumped.waiters + [waiter])
  }

  // ---------------------------------------------------------------- the invariant

  /** The entry names the most recently queued task with the key. */
  ghost predicate NamesLatest(queue: seq<Task>, key: Key, id: TaskId) {
    exists i :: 0 <= i < |queue| && queue[i].id == id && queue[i].key == Some(key)
      && forall j :: i < j < |queue| ==> queue[j].key != Some(key)
  }

  ghost predicate KeysFit(queue: seq<Task>, byKey: map<Key, TaskId>) {
    forall k :: k in byKey ==> NamesLatest(queue, k, byKey[k])
  }

  /** Every key of a queued task is indexed. */
  ghost predicate KeysComplete(e: Engine) {
    forall i :: 0 <= i < |e.queue| && e.queue[i].key.Some? ==> e.queue[i].key.value in e.byKey
  }

  function Survivors(offered: seq<TaskId>, gone: set<TaskId>): seq<TaskId> {
    if offered == [] then []
    else
      var front, last := Survivors(offered[..|offered| - 1], gone), offered[|offered| - 1];
      if last in gone then front else front + [last]
  }

  /** Every offered task is started, queued, dropped or merged, and tasks start in the order they were offered. */
  ghost predicate Conserved(e: Engine) {
    && (forall i, j :: 0 <= i < j < |e.offered| ==> e.offered[i] != e.offered[j])
    && (forall id :: id in e.dropped + e.merged ==> id in e.offered)
    && e.dropped !! e.merged
    && e.started + Ids(e.queue) == Survivors(e.offered, e.dropped + e.merged)
  }

  /** A non-empty queue keeps all workers busy; nobody waits for an idle engine to drain. */
  ghost predicate WorkConserving(e: Engine, c: Config) {
    && e.running <= c.concurrency
    && (e.queue != [] ==> e.running == c.concurrency)
    && (e.waiters != [] ==> e.running > 0)
  }

  ghost predicate Limits(c: Config) {
    c.maxPending >= 1 && c.concurrency >= 1
  }

  ghost predicate Inv(e: Engine, c: Config) {
    && Limits(c) && |e.queue| <= c.maxPending
    && KeysFit(e.queue, e.byKey) && Conserved(e) && WorkConserving(e, c)
  }

  // ---------------------------------------------------------------- key index lemmas

  ghost predicate DistinctIds(queue: seq<Task>) {
    forall i, j :: 0 <= i < j < |queue| ==> queue[i].id != queue[j].id
  }

  lemma HeadLeavesKeys(queue: seq<Task>, byKey: map<Key, TaskId>)
    requires queue != [] && KeysFit(queue, byKey) && DistinctIds(queue)
    ensures KeysFit(queue[1..], Unindex(byKey, queue[0]))
    ensures forall k :: k in byKey && k !in Unindex(byKey, queue[0]) ==>
      queue[0].key == Some(k) && forall j :: 0 < j < |queue| ==> queue[j].key != Some(k)
  {
    var rest, left := queue[1..], Unindex(byKey, queue[0]);
    forall k | k in left ensures NamesLatest(rest, k, left[k]) {
      assert NamesLatest(queue, k, byKey[k]);
      var i :| 0 <= i < |queue| && queue[i].id == byKey[k] && queue[i].key == Some(k)
        && forall j :: i < j < |queue| ==> queue[j].key != Some(k);
      assert i > 0;
      assert rest[i - 1] == queue[i];
    }
    forall k | k in byKey && k !in left ensures forall j :: 0 < j < |queue| ==> queue[j].key != Some(k) {
      assert NamesLatest(queue, k, byKey[k]);
    }
  }

  lemma PushKeepsKeys(e: Engine, o: Offer)
    requires KeysFit(e.queue, e.byKey) && (OfferedKey(o).Some? ==> OfferedKey(o).value !in e.byKey)
    ensures KeysFit(Push(e, o).queue, Push(e, o).byKey)
  {
    var after := Push(e, o);
    var n := |e.queue|;
    forall k | k in after.byKey ensures NamesLatest(after.queue, k, after.byKey[k]) {
      if OfferedKey(o) == Some(k) {
        assert after.queue[n].id == o.id && after.queue[n].key == Some(k);
      } else {
        assert NamesLatest(e.queue, k, e.byKey[k]);
        var i :| 0 <= i < n && e.queue[i].id == e.byKey[k] && e.queue[i].key == Some(k)
          && forall j :: i < j < n ==> e.queue[j].key != Some(k);
        assert after.queue[i] == e.queue[i];
      }
    }
  }

  lemma MergeKeepsKeys(e: Engine, o: Offer, i: nat)
    requires KeysFit(e.queue, e.byKey) && i < |e.queue| && o.coalesce.On?
    ensures KeysFit(Merge(e, o, i).queue, e.byKey) && Ids(Merge(e, o, i).queue) == Ids(e.queue)
    ensures forall j :: 0 <= j < |e.queue| ==> Merge(e, o, i).queue[j].key == e.queue[j].key
  {
    var after := Merge(e, o, i).queue;
    forall k | k in e.byKey ensures NamesLatest(after, k, e.byKey[k]) {
      assert NamesLatest(e.queue, k, e.byKey[k]);
      var m :| 0 <= m < |e.queue| && e.queue[m].id == e.byKey[k] && e.queue[m].key == Some(k)
        && forall j :: m < j < |e.queue| ==> e.queue[j].key != Some(k);
      assert after[m].id == e.byKey[k] && after[m].key == Some(k);
    }
  }

  // ---------------------------------------------------------------- conservation lemmas

  lemma {:induction false} SurvivorsHas(offered: seq<TaskId>, gone: set<TaskId>, id: TaskId)
    ensures id in Survivors(offered, gone) <==> id in offered && id !in gone
  {
    if offered != [] {
      SurvivorsHas(offered[..|offered| - 1], gone, id);
      assert offered == offered[..|offered| - 1] + [offered[|offered| - 1]];
    }
  }

  lemma {:induction false} SurvivorsDistinct(offered: seq<TaskId>, gone: set<TaskId>)
    requires forall i, j :: 0 <= i < j < |offered| ==> offered[i] != offered[j]
    ensures forall i, j :: 0 <= i < j < |Survivors(offered, gone)| ==> Survivors(offered, gone)[i] != Survivors(offered, gone)[j]
  {
    if offered != [] {
      var front, last := offered[..|offered| - 1], offered[|offered| - 1];
      SurvivorsDistinct(front, gone);
      SurvivorsHas(front, gone, last);
    }
  }

  lemma {:induction false} SurvivorsIgnore(offered: seq<TaskId>, gone: set<TaskId>, id: TaskId)
    requires id !in offered
    ensures Survivors(offered, gone + {id}) == Survivors(offered, gone)
  {
    if offered != [] {
      SurvivorsIgnore(offered[..|offered| - 1], gone, id);
    }
  }

  /** Taking one survivor out removes just its occurrence. */
  lemma {:induction false} SurvivorsLose(offered: seq<TaskId>, gone: set<TaskId>, before: seq<TaskId>, id: TaskId, after: seq<TaskId>)
    requires forall i, j :: 0 <= i < j < |offered| ==> offered[i] != offered[j]
    requires Survivors(offered, gone) == before + [id] + after
    ensures Survivors(offered, gone + {id}) == before + after
    decreases |offered|
  {
    var front, last := offered[..|offered| - 1], offered[|offered| - 1];
    var all, most := Survivors(offered, gone), Survivors(front, gone);
    if last in gone {
      SurvivorsLose(front, gone, before, id, after);
    } else {
      assert all == most + [last] && most == all[..|all| - 1];
      if after == [] {
        assert before + [id] + after == before + [id] && before + after == before;
        SurvivorsIgnore(front, gone, id);
      } else {
        var n := |after| - 1;
        assert all[|all| - 1] == after[n];
        assert most == before + [id] + after[..n];
        assert most[|before|] == id;
        SurvivorsHas(front, gone, id);
        SurvivorsLose(front, gone, before, id, after[..n]);
        assert before + after == before + after[..n] + [after[n]];
      }
    }
  }

  lemma QueuedIdsDistinct(e: Engine)
    requires Conserved(e)
    ensures DistinctIds(e.queue)
  {
    var all, n := e.started + Ids(e.queue), |e.started|;
    SurvivorsDistinct(e.offered, e.dropped + e.merged);
    forall i, j | 0 <= i < j < |e.queue| ensures e.queue[i].id != e.queue[j].id {
      assert all[n + i] == e.queue[i].id && all[n + j] == e.queue[j].id;
    }
  }

  lemma TakeConserves(e: Engine)
    requires Conserved(e) && e.queue != []
    ensures Conserved(TakeNext(e))
  {
    var after := TakeNext(e);
    assert Ids(e.queue) == [e.queue[0].id] + Ids(after.queue);
    assert after.started + Ids(after.queue) == e.started + Ids(e.queue);
  }

  lemma DropHeadConserves(e: Engine)
    requires Conserved(e) && e.queue != []
    ensures Conserved(DropHead(e))
  {
    var after, id := DropHead(e), e.queue[0].id;
    assert Ids(e.queue) == [id] + Ids(after.queue);
    assert e.started + Ids(e.queue) == e.started + [id] + Ids(after.queue);
    SurvivorsHas(e.offered, e.dropped + e.merged, id);
    assert (e.started + [id] + Ids(after.queue))[|e.started|] == id;
    SurvivorsLose(e.offered, e.dropped + e.merged, e.started, id, Ids(after.queue));
    assert after.dropped + after.merged == e.dropped + e.merged + {id};
  }

  /** Offering a new task and queueing, dropping or merging it. */
  lemma OfferConserves(e: Engine, o: Offer)
    requires Conserved(e) && o.id !in e.offered
    ensures var all := e.(offered := e.offered + [o.id]);
      && Conserved(all.(dropped := e.dropped + {o.id})) && Conserved(all.(merged := e.merged + {o.id}))
      && Survivors(all.offered, e.dropped + e.merged) == e.started + Ids(e.queue) + [o.id]
  {
    var gone, offered := e.dropped + e.merged, e.offered + [o.id];
    assert offered[..|offered| - 1] == e.offered;
    SurvivorsIgnore(e.offered, gone, o.id);
    assert e.dropped + {o.id} + e.merged == gone + {o.id};
    assert e.dropped + (e.merged + {o.id}) == gone + {o.id};
  }

  // ---------------------------------------------------------------- every step keeps the invariant

  /** What holds of the queue and its indexes, whatever the workers are doing. */
  ghost predicate QueueFits(e: Engine) {
    KeysFit(e.queue, e.byKey) && Conserved(e)
  }

  lemma TakeKeepsQueue(e: Engine)
    requires QueueFits(e) && e.queue != []
    ensures QueueFits(TakeNext(e)) && QueueFits(TakeNext(e.(running := e.running + 1)))
    ensures KeysComplete(e) ==> KeysComplete(TakeNext(e)) && KeysComplete(TakeNext(e.(running := e.running + 1)))
  {
    QueuedIdsDistinct(e);
    HeadLeavesKeys(e.queue, e.byKey);
    TakeConserves(e);
    if KeysComplete(e) {
      TakeKeepsComplete(e);
    }
    var busy := e.(running := e.running + 1);
    assert TakeNext(busy) == TakeNext(e).(running := busy.running);
    hide TakeNext, KeysFit;
  }

  lemma TakeKeepsComplete(e: Engine)
    requires QueueFits(e) && e.queue != [] && KeysComplete(e)
    ensures KeysComplete(TakeNext(e))
  {
    QueuedIdsDistinct(e);
    HeadLeavesKeys(e.queue, e.byKey);
    var rest := e.queue[1..];
    forall i | 0 <= i < |rest| && rest[i].key.Some? ensures rest[i].key.value in Unindex(e.byKey, e.queue[0]) {
      assert rest[i] == e.queue[i + 1];
    }
  }

  /** Pumping starts queued tasks, in order, until every worker is busy or the queue is empty. */
  lemma {:induction false} PumpKeepsQueue(e: Engine, c: Config)
    requires QueueFits(e) && e.running <= c.concurrency && Limits(c)
    ensures var p := Pump(e, c);
      && QueueFits(p) && WorkConserving(p.(waiters := []), c) && |p.queue| <= |e.queue|
      && p.offered == e.offered && p.dropped == e.dropped && p.merged == e.merged && e.started <= p.started
      && p.waiters == (if p.running == 0 && p.queue == [] then [] else e.waiters) && p.running >= e.running
      && (e.queue != [] ==> |p.queue| < |e.queue| || e.running == c.concurrency)
      && (KeysComplete(e) ==> KeysComplete(p))
    decreases |e.queue|
  {
    if e.running < c.concurrency && e.queue != [] {
      TakeKeepsQueue(e);
      PumpKeepsQueue(TakeNext(e.(running := e.running + 1)), c);
      hide QueueFits, KeysComplete;
    }
  }

  lemma PushConserves(e: Engine, o: Offer, offered: seq<TaskId>)
    requires e.offered == offered + [o.id] && KeysFit(e.queue, e.byKey)
    requires OfferedKey(o).Some? ==> OfferedKey(o).value !in e.byKey
    requires (forall i, j :: 0 <= i < j < |e.offered| ==> e.offered[i] != e.offered[j])
    requires (forall id :: id in e.dropped + e.merged ==> id in e.offered) && e.dropped !! e.merged
    requires Survivors(e.offered, e.dropped + e.merged) == e.started + Ids(e.queue) + [o.id]
    ensures QueueFits(Push(e, o))
  {
    PushKeepsKeys(e, o);
    assert Ids(Push(e, o).queue) == Ids(e.queue) + [o.id];
    assert e.started + Ids(e.queue) + [o.id] == e.started + (Ids(e.queue) + [o.id]);
  }

  lemma ForgetKeepsKeys(e: Engine, o: Offer)
    requires KeysFit(e.queue, e.byKey)
    ensures var u := ForgetEntry(e, o);
      KeysFit(u.queue, u.byKey) && (OfferedKey(o).Some? ==> OfferedKey(o).value !in u.byKey)
  {
  }

  /** Making room and queueing, with the offer already counted. */
  lemma QueueOffer(e: Engine, o: Offer, c: Config)
    requires QueueFits(e) && o.id !in e.offered
    ensures var u := ForgetEntry(e.(offered := e.offered + [o.id]), o);
      && QueueFits(Push(u, o)) && (u.queue != [] ==> QueueFits(Push(DropHead(u), o)))
      && QueueFits(u.(dropped := u.dropped + {o.id}))
  {
    var u := ForgetEntry(e.(offered := e.offered + [o.id]), o);
    QueueOfferWithRoom(e, u, o);
    QueueOfferRefused(e, u, o);
    if e.queue != [] {
      QueueOfferAfterDrop(e, u, o);
    }
    hide QueueFits, Push, DropHead;
  }

  lemma QueueOfferWithRoom(e: Engine, u: Engine, o: Offer)
    requires QueueFits(e) && o.id !in e.offered && u == ForgetEntry(e.(offered := e.offered + [o.id]), o)
    ensures QueueFits(Push(u, o))
  {
    OfferConserves(e, o);
    ForgetKeepsKeys(e, o);
    hide KeysFit, Survivors;
    PushConserves(u, o, e.offered);
  }

  lemma QueueOfferRefused(e: Engine, u: Engine, o: Offer)
    requires QueueFits(e) && o.id !in e.offered && u == ForgetEntry(e.(offered := e.offered + [o.id]), o)
    ensures QueueFits(u.(dropped := u.dropped + {o.id}))
  {
    OfferConserves(e, o);
    ForgetKeepsKeys(e, o);
    hide KeysFit, Survivors;
  }

  lemma QueueOfferAfterDrop(e: Engine, u: Engine, o: Offer)
    requires QueueFits(e) && o.id !in e.offered && e.queue != []
    requires u == ForgetEntry(e.(offered := e.offered + [o.id]), o)
    ensures QueueFits(Push(DropHead(u), o))
  {
    var d := DropHead(u);
    DropHeadConserves(e);
    OfferConserves(DropHead(e), o);
    DroppedKeysFit(e, u, o);
    assert d.queue == DropHead(e).queue && d.started == e.started && d.merged == e.merged && d.offered == e.offered + [o.id];
    assert d.dropped == DropHead(e).dropped;
    var dropped := DropHead(e).dropped;
    hide KeysFit, Unindex, DropHead, ForgetEntry, QueueFits, Survivors;
    PushConserves(d, o, e.offered);
  }

  lemma DroppedKeysFit(e: Engine, u: Engine, o: Offer)
    requires QueueFits(e) && e.queue != [] && u == ForgetEntry(e.(offered := e.offered + [o.id]), o)
    ensures KeysFit(DropHead(u).queue, DropHead(u).byKey) && (OfferedKey(o).Some? ==> OfferedKey(o).value !in DropHead(u).byKey)
  {
    QueuedIdsDistinct(e);
    ForgetKeepsKeys(e, o);
    HeadLeavesKeys(u.queue, u.byKey);
    hide KeysFit, Conserved;
  }

  lemma MergeKeepsInv(e: Engine, o: Offer, i: nat, c: Config)
    requires Inv(e, c) && o.id !in e.offered && i < |e.queue| && o.coalesce.On?
    ensures Inv(Merge(e.(offered := e.offered + [o.id]), o, i), c)
  {
    MergeKeepsKeys(e, o, i);
    OfferConserves(e, o);
    var m := Merge(e.(offered := e.offered + [o.id]), o, i);
    assert Ids(m.queue) == Ids(e.queue) && m.queue == Merge(e, o, i).queue && |m.queue| == |e.queue|;
    assert m.merged == e.merged + {o.id} && m.offered == e.offered + [o.id];
    hide Merge, KeysFit, Survivors;
  }

  lemma EnqueueKeepsInv(e: Engine, o: Offer, now: int, c: Config)
    requires Inv(e, c) && o.id !in e.offered
    ensures Inv(Enqueue(e, o, now, c), c)
  {
    var target := MergeTarget(e, o, now);
    if target.Some? {
      MergeKeepsInv(e, o, target.value, c);
      hide Merge, Inv;
    } else {
      QueueKeepsInv(e, o, c);
      hide ForgetEntry, Pump, MergeTarget, Inv, Push, DropHead;
    }
  }

  lemma QueueKeepsInv(e: Engine, o: Offer, c: Config)
    requires Inv(e, c) && o.id !in e.offered
    ensures var u := ForgetEntry(e.(offered := e.offered + [o.id]), o);
      if |u.queue| >= c.maxPending && c.policy.DropNewest? then Inv(u.(dropped := u.dropped + {o.id}), c)
      else Inv(Pump(Push(if |u.queue| >= c.maxPending && u.queue != [] then DropHead(u) else u, o), c), c)
  {
    QueueOffer(e, o, c);
    var u := ForgetEntry(e.(offered := e.offered + [o.id]), o);
    assert u.queue == e.queue && u.running == e.running && u.waiters == e.waiters;
    var room := if |u.queue| >= c.maxPending && u.queue != [] then DropHead(u) else u;
    assert room.running == e.running && (|room.queue| < c.maxPending || c.policy.DropNewest?);
    var pushed := Push(room, o);
    assert pushed.running == room.running && |pushed.queue| == |room.queue| + 1;
    hide ForgetEntry, Pump, KeysFit, Conserved, Push, DropHead;
    if !(|u.queue| >= c.maxPending && c.policy.DropNewest?) {
      PumpKeepsQueue(pushed, c);
    }
  }

  lemma FinishKeepsInv(e: Engine, c: Config)
    requires Inv(e, c) && e.running > 0
    ensures Inv(Finish(e, c), c)
  {
    if e.queue != [] {
      TakeKeepsQueue(e);
    } else {
      PumpKeepsQueue(e.(running := e.running - 1), c);
    }
    hide Pump, KeysFit, Conserved;
  }

  lemma StopKeepsInv(e: Engine, waiter: nat, c: Config)
    requires Inv(e, c)
    ensures Inv(Stop(e, waiter, c), c)
  {
    PumpKeepsQueue(e, c);
    hide Pump, KeysFit, Conserved;
  }

  datatype Step = Offers(o: Offer, now: int) | Finishes | Stops(waiter: nat)

  predicate Possible(e: Engine, s: Step) {
    match s
    case Offers(o, _) => o.id !in e.offered
    case Finishes => e.running > 0
    case Stops(_) => true
  }

  function Next(e: Engine, s: Step, c: Config): Engine
    requires Possible(e, s)
  {
    match s
    case Offers(o, now) => Enqueue(e, o, now, c)
    case Finishes => Finish(e, c)
    case Stops(waiter) => Stop(e, waiter, c)
  }

  ghost predicate IsRun(states: seq<Engine>, steps: seq<Step>, c: Config) {
    && |states| == |steps| + 1 && states[0] == EMPTY
    && forall i :: 0 <= i < |steps| ==> Possible(states[i], steps[i]) && states[i + 1] == Next(states[i], steps[i], c)
  }

  /** In every run, with any order of offers, completions and stops. */
  lemma {:induction false} RunKeepsInv(states: seq<Engine>, steps: seq<Step>, c: Config, n: nat)
    requires IsRun(states, steps, c) && Limits(c) && n < |states|
    ensures Inv(states[n], c)
  {
    if n > 0 {
      RunKeepsInv(states, steps, c, n - 1);
      var e := states[n - 1];
      hide Enqueue, Finish, Stop, Inv;
      match steps[n - 1]
      case Offers(o, now) => EnqueueKeepsInv(e, o, now, c);
      case Finishes => FinishKeepsInv(e, c);
      case Stops(waiter) => StopKeepsInv(e, waiter, c);
    }
  }

  /** Every offered task is exactly one of started, queued, dropped and merged. */
  lemma EveryTaskHasOneFate(e: Engine, id: TaskId)
    requires Conserved(e)
    ensures id in e.offered <==> id in e.started || id in Ids(e.queue) || id in e.dropped || id in e.merged
    ensures id in e.started ==> id !in Ids(e.queue) && id !in e.dropped && id !in e.merged
    ensures id in Ids(e.queue) ==> id !in e.dropped && id !in e.merged
    ensures !(id in e.dropped && id in e.merged)
  {
    SurvivorsHas(e.offered, e.dropped + e.merged, id);
    SurvivorsDistinct(e.offered, e.dropped + e.merged);
    var all := e.started + Ids(e.queue);
    assert id in all <==> id in e.started || id in Ids(e.queue);
    forall i, j | 0 <= i < |e.started| && 0 <= j < |e.queue| ensures e.started[i] != Ids(e.queue)[j] {
      assert all[i] == e.started[i] && all[|e.started| + j] == Ids(e.queue)[j];
    }
  }

  // ---------------------------------------------------------------- the index under the two drop policies

  /** The offer is dropped as the newest although an entry of its key, too old to merge with, was taken out for it. */
  predicate Forgets(e: Engine, o: Offer, now: int, c: Config) {
    && c.policy.DropNewest? && |e.queue| >= c.maxPending && MergeTarget(e, o, now).None?
    && OfferedKey(o).Some? && OfferedKey(o).value in e.byKey
  }

  /** Offering a task leaves every queued key indexed exactly when it does not forget an entry that way. */
  lemma EnqueueKeepsCompleteIff(e: Engine, o: Offer, now: int, c: Config)
    requires Inv(e, c) && o.id !in e.offered && KeysComplete(e)
    ensures KeysComplete(Enqueue(e, o, now, c)) <==> !Forgets(e, o, now, c)
  {
    var target := MergeTarget(e, o, now);
    if target.Some? {
      MergeKeepsKeys(e, o, target.value);
    } else if |e.queue| >= c.maxPending && c.policy.DropNewest? {
      DroppedNewestKeys(e, o, now, c);
    } else {
      QueueOffer(e, o, c);
      var u := ForgetEntry(e.(offered := e.offered + [o.id]), o);
      var room := if |u.queue| >= c.maxPending && u.queue != [] then DropHead(u) else u;
      PushCompletes(e, u, o);
      PumpKeepsQueue(Push(room, o), c);
      hide Pump, MergeTarget, KeysFit, Conserved;
    }
  }

  lemma DroppedNewestKeys(e: Engine, o: Offer, now: int, c: Config)
    requires KeysFit(e.queue, e.byKey) && KeysComplete(e)
    requires |e.queue| >= c.maxPending && c.policy.DropNewest? && MergeTarget(e, o, now).None?
    ensures KeysComplete(Enqueue(e, o, now, c)) <==> !Forgets(e, o, now, c)
  {
    hide MergeTarget;
    if OfferedKey(o).Some? && OfferedKey(o).value in e.byKey {
      ForgottenIsQueued(e, OfferedKey(o).value);
    }
  }

  lemma ForgottenIsQueued(e: Engine, k: Key)
    requires KeysFit(e.queue, e.byKey) && k in e.byKey
    ensures exists i :: 0 <= i < |e.queue| && e.queue[i].key == Some(k)
  {
    assert NamesLatest(e.queue, k, e.byKey[k]);
  }

  lemma PushCompletes(e: Engine, u: Engine, o: Offer)
    requires QueueFits(e) && KeysComplete(e) && u == ForgetEntry(e.(offered := e.offered + [o.id]), o)
    ensures KeysComplete(Push(u, o)) && (u.queue != [] ==> KeysComplete(Push(DropHead(u), o)))
  {
    if u.queue != [] {
      QueuedIdsDistinct(e);
      HeadLeavesKeys(e.queue, e.byKey);
    }
  }

  /** With drop_oldest every queued key is always indexed, so no chance to merge is missed. */
  lemma {:induction false} DropOldestIndexesEveryKey(states: seq<Engine>, steps: seq<Step>, c: Config, n: nat)
    requires IsRun(states, steps, c) && Limits(c) && c.policy.DropOldest? && n < |states|
    ensures KeysComplete(states[n])
  {
    if n > 0 {
      DropOldestIndexesEveryKey(states, steps, c, n - 1);
      RunKeepsInv(states, steps, c, n - 1);
      var e := states[n - 1];
      hide Enqueue, KeysComplete, Pump, TakeNext;
      match steps[n - 1]
      case Offers(o, now) => EnqueueKeepsCompleteIff(e, o, now, c);
      case Finishes =>
        if e.queue != [] { TakeKeepsQueue(e); } else { EmptyIsComplete(e); PumpKeepsQueue(e.(running := e.running - 1), c); }
      case Stops(waiter) => PumpKeepsQueue(e, c); WaitersDoNotMatter(Pump(e, c), waiter);
    } else {
      EmptyIsComplete(EMPTY);
    }
  }

  lemma EmptyIsComplete(e: Engine)
    requires e.queue == []
    ensures KeysComplete(e) && KeysComplete(e.(running := if e.running > 0 then e.running - 1 else 0))
  {
  }

  lemma WaitersDoNotMatter(e: Engine, waiter: nat)
    requires KeysComplete(e)
    ensures KeysComplete(e.(waiters := e.waiters + [waiter]))
  {
  }

  /** With drop_newest an expired entry is forgotten although the new task is then dropped. */
  lemma DropNewestForgetsKey(k: Key)
    ensures var c := Config(1, 1, DropNewest);
      var on := On(Some(k), 10, true);
      var steps := [Offers(Offer(0, 0, 0, Off), 0), Offers(Offer(1, 1, 0, on), 0), Offers(Offer(2, 2, 20, on), 20)];
      var s1 := Next(EMPTY, steps[0], c);
      && Possible(s1, steps[1])
      && var s2 := Next(s1, steps[1], c);
      Possible(s2, steps[2]) && KeysComplete(s2) && !KeysComplete(Next(s2, steps[2], c))
  {
    var c, on := Config(1, 1, DropNewest), On(Some(k), 10, true);
    var s1 := Enqueue(EMPTY, Offer(0, 0, 0, Off), 0, c);
    var p := Push(EMPTY.(offered := [0]), Offer(0, 0, 0, Off));
    assert p == Engine([Task(0, 0, 0, None, 0)], map[], 0, [], [0], [], {}, {});
    var busy := TakeNext(p.(running := 1));
    assert busy == Engine([], map[], 1, [], [0], [0], {}, {});
    assert Pump(p, c) == Pump(busy, c) == busy;
    assert EMPTY.offered + [0] == [0];
    assert s1 == busy;
    var s2 := Enqueue(s1, Offer(1, 1, 0, on), 0, c);
    assert s2.queue == [Task(1, 1, 0, Some(k), 0)] && s2.byKey == map[k := 1];
    var s3 := Enqueue(s2, Offer(2, 2, 20, on), 20, c);
    assert Find(s2.queue, 1) == 0;
    assert s3.queue == s2.queue && s3.byKey == map[];
    assert s3.queue[0].key == Some(k);
  }
}
