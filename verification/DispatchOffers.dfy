/**
 * What becomes of a task that is offered to the dispatch engine: merged into the latest queued one
 * of its key, refused, or queued at the end, perhaps at the cost of the oldest.
 */
module DispatchOffers {
  import opened Options
  import opened DispatchSteps

  /** The latest queued task of the offer's key, indexed and not older than the window. */
  ghost predicate TakesOffer(e: Engine, o: Offer, now: int, i: nat) {
    && i < |e.queue| && o.coalesce.On? && o.coalesce.key.Some?
    && e.queue[i].key == o.coalesce.key && (forall j :: i < j < |e.queue| ==> e.queue[j].key != o.coalesce.key)
    && o.coalesce.key.value in e.byKey && now - e.queue[i].enqueuedAt <= o.coalesce.windowMs
  }

  lemma TargetIs(e: Engine, o: Offer, now: int, c: Config)
    requires Inv(e, c)
    ensures MergeTarget(e, o, now).Some? <==> exists i: nat :: TakesOffer(e, o, now, i)
    ensures forall i: nat :: TakesOffer(e, o, now, i) ==> MergeTarget(e, o, now) == Some(i)
  {
    QueuedIdsDistinct(e);
    if o.coalesce.On? && o.coalesce.key.Some? && o.coalesce.key.value in e.byKey {
      var k := o.coalesce.key.value;
      assert NamesLatest(e.queue, k, e.byKey[k]);
      var i :| 0 <= i < |e.queue| && e.queue[i].id == e.byKey[k] && e.queue[i].key == Some(k)
        && forall j :: i < j < |e.queue| ==> e.queue[j].key != Some(k);
      assert Find(e.queue, e.byKey[k]) == i;
      assert now - e.queue[i].enqueuedAt <= o.coalesce.windowMs ==> TakesOffer(e, o, now, i);
    }
    hide Find, KeysFit, Conserved;
  }

  /** The task after taking the offer: it keeps its place, id and key, and the newest or the oldest event. */
  predicate HasTaken(before: Task, after: Task, o: Offer) {
    && after.id == before.id && after.key == before.key && after.mergedCount == before.mergedCount + 1
    && (o.coalesce.On? && o.coalesce.keepLatest ==> after.event == o.event && after.enqueuedAt == o.enqueuedAt)
    && (o.coalesce.On? && !o.coalesce.keepLatest ==> after.event == before.event && after.enqueuedAt == before.enqueuedAt)
  }

  /** An offer is merged exactly if a queued task takes it, and then nothing else changes. */
  lemma OfferIsMergedIff(e: Engine, o: Offer, now: int, c: Config)
    requires Inv(e, c) && o.id !in e.offered
    ensures o.id in Enqueue(e, o, now, c).merged <==> exists i: nat :: TakesOffer(e, o, now, i)
    ensures forall i: nat :: TakesOffer(e, o, now, i) ==>
      var after := Enqueue(e, o, now, c);
      && |after.queue| == |e.queue| && HasTaken(e.queue[i], after.queue[i], o)
      && (forall j :: 0 <= j < |e.queue| && j != i ==> after.queue[j] == e.queue[j])
      && after.merged == e.merged + {o.id} && after.dropped == e.dropped && after.started == e.started
      && after.running == e.running && after.byKey == e.byKey && after.waiters == e.waiters
  {
    TargetIs(e, o, now, c);
    assert o.id !in e.merged;
    if MergeTarget(e, o, now).None? {
      UnmergedOffer(e, o, now, c);
    }
    hide Pump, MergeTarget, TakesOffer, Inv, ForgetEntry, Push, DropHead;
  }

  lemma UnmergedOffer(e: Engine, o: Offer, now: int, c: Config)
    requires Inv(e, c) && o.id !in e.offered && MergeTarget(e, o, now).None?
    ensures var after := Enqueue(e, o, now, c); after.merged == e.merged && QueuedOrRefused(e, o, c, after)
  {
    hide MergeTarget, Inv;
    var u := ForgetEntry(e.(offered := e.offered + [o.id]), o);
    assert u.queue == e.queue && u.started == e.started && u.dropped == e.dropped && u.merged == e.merged && u.running == e.running;
    hide ForgetEntry;
    if !(|e.queue| >= c.maxPending && c.policy.DropNewest?) {
      PushedIsQueued(e, u, o, c);
      hide Pump, QueuedOrRefused, Push, DropHead;
    }
  }

  lemma PushedIsQueued(e: Engine, u: Engine, o: Offer, c: Config)
    requires u.queue == e.queue && u.started == e.started && u.dropped == e.dropped && u.merged == e.merged && u.running == e.running
    requires !(|e.queue| >= c.maxPending && c.policy.DropNewest?)
    ensures var after := Pump(Push(if |u.queue| >= c.maxPending && u.queue != [] then DropHead(u) else u, o), c);
      after.merged == e.merged && QueuedOrRefused(e, o, c, after)
  {
    var p := Push(if |u.queue| >= c.maxPending && u.queue != [] then DropHead(u) else u, o);
    PumpStartsInOrder(p, c);
    PumpKeepsFates(p, c);
    hide Pump, Ids, Unindex;
  }

  lemma {:induction false} PumpKeepsFates(e: Engine, c: Config)
    ensures Pump(e, c).merged == e.merged && Pump(e, c).dropped == e.dropped
    decreases |e.queue|
  {
    if e.running < c.concurrency && e.queue != [] {
      PumpKeepsFates(TakeNext(e.(running := e.running + 1)), c);
    }
  }

  /** Pumping moves tasks from the front of the queue to the started ones, as they are. */
  lemma {:induction false} PumpStartsInOrder(e: Engine, c: Config)
    ensures var p := Pump(e, c);
      |p.queue| <= |e.queue| && p.queue == e.queue[|e.queue| - |p.queue|..] && p.started + Ids(p.queue) == e.started + Ids(e.queue)
    decreases |e.queue|
  {
    if e.running < c.concurrency && e.queue != [] {
      var next := TakeNext(e.(running := e.running + 1));
      PumpStartsInOrder(next, c);
      assert Ids(e.queue) == [e.queue[0].id] + Ids(e.queue[1..]);
      assert next.started + Ids(next.queue) == e.started + Ids(e.queue);
    } else {
      assert e.queue[0..] == e.queue;
    }
  }

  /** A full queue refuses the offer, or loses its oldest task; a task that is not refused starts after all before it. */
  ghost predicate QueuedOrRefused(e: Engine, o: Offer, c: Config, after: Engine) {
    if |e.queue| >= c.maxPending && c.policy.DropNewest? then
      after.queue == e.queue && after.started == e.started && after.dropped == e.dropped + {o.id} && after.running == e.running
    else
      var full := |e.queue| >= c.maxPending && e.queue != [];
      var kept := if full then e.queue[1..] else e.queue;
      var own := Task(o.id, o.event, o.enqueuedAt, if o.coalesce.On? then o.coalesce.key else None, 0);
      && after.dropped == (if full then e.dropped + {e.queue[0].id} else e.dropped)
      && |after.queue| <= |kept| + 1 && after.queue == (kept + [own])[|kept| + 1 - |after.queue|..]
      && after.started + Ids(after.queue) == e.started + Ids(kept + [own])
  }

  /** An offer that no task takes is refused, or queued with its own event; nothing is merged. */
  lemma OtherOfferIsQueued(e: Engine, o: Offer, now: int, c: Config)
    requires Inv(e, c) && o.id !in e.offered && forall i: nat :: !TakesOffer(e, o, now, i)
    ensures var after := Enqueue(e, o, now, c); after.merged == e.merged && QueuedOrRefused(e, o, c, after)
  {
    TargetIs(e, o, now, c);
    UnmergedOffer(e, o, now, c);
    hide Enqueue, Inv, QueuedOrRefused;
  }

  /** A worker that ends its task takes the oldest queued one; without any, one worker less runs. */
  lemma FinishTakesNext(e: Engine, c: Config)
    requires Inv(e, c) && e.running > 0
    ensures var after := Finish(e, c);
      && after.merged == e.merged && after.dropped == e.dropped
      && (if e.queue != [] then after.started == e.started + [e.queue[0].id] && after.queue == e.queue[1..] && after.running == e.running
          else after.started == e.started && after.queue == [] && after.running == e.running - 1)
      && (after.running == 0 && after.queue == [] ==> after.waiters == []) && (after.running > 0 ==> after.waiters == e.waiters)
  {
  }
}
