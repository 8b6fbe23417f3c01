/**
 * Flushes of the delivery queue during which events are evicted: every eviction shifts the queue
 * under the positions that earlier batches have collected.
 */
module QueueEvictions {
  import opened Options
  import opened QueueSteps

  // ---------------------------------------------------------------- the queue as events arrive

  /** The queue after the first n events have arrived at it. */
  function Later(queue: seq<Item>, events: seq<EventId>, n: nat, maxSize: nat): seq<Item>
    requires n <= |events|
  {
    if n == 0 then queue else Pushed(Later(queue, events, n - 1, maxSize), events[n - 1], maxSize)
  }

  predicate Full(queue: seq<Item>, maxSize: nat) {
    |queue| >= maxSize && queue != []
  }

  /** How many items the first n events have evicted. */
  function Evicted(queue: seq<Item>, events: seq<EventId>, n: nat, maxSize: nat): nat
    requires n <= |events|
  {
    if n == 0 then 0
    else Evicted(queue, events, n - 1, maxSize) + if Full(Later(queue, events, n - 1, maxSize), maxSize) then 1 else 0
  }

  lemma PushedIs(all: seq<Item>, low: nat, high: nat, event: EventId, maxSize: nat)
    requires low <= high < |all| && all[high] == Item(event, 0)
    ensures var next := if Full(all[low..high], maxSize) then low + 1 else low;
      Pushed(all[low..high], event, maxSize) == all[next..high + 1]
    ensures Full(all[low..high], maxSize) ==> low < high
  {
    var slice := all[low..high];
    assert all[low..high + 1] == slice + [all[high]];
    if low < high {
      assert slice[1..] == all[low + 1..high];
      assert all[low + 1..high + 1] == all[low + 1..high] + [all[high]];
    }
  }

  lemma {:induction false} LaterIs(queue: seq<Item>, events: seq<EventId>, n: nat, maxSize: nat)
    requires n <= |events|
    ensures var all, e := queue + NewItems(events), Evicted(queue, events, n, maxSize);
      e <= |queue| + n && Later(queue, events, n, maxSize) == all[e..|queue| + n]
  {
    var all := queue + NewItems(events);
    hide NewItems, Pushed, Full;
    if n > 0 {
      LaterIs(queue, events, n - 1, maxSize);
      NewItemAt(queue, events, n - 1);
      PushedIs(all, Evicted(queue, events, n - 1, maxSize), |queue| + n - 1, events[n - 1], maxSize);
    } else {
      assert all[0..|queue|] == queue;
    }
  }

  lemma NewItemAt(queue: seq<Item>, events: seq<EventId>, n: nat)
    requires n < |events|
    ensures var all := queue + NewItems(events); |all| == |queue| + |events| && all[|queue| + n] == Item(events[n], 0)
  {
  }

  lemma {:induction false} EvictedGrows(queue: seq<Item>, events: seq<EventId>, m: nat, n: nat, maxSize: nat)
    requires m <= n <= |events|
    ensures Evicted(queue, events, m, maxSize) <= Evicted(queue, events, n, maxSize) <= Evicted(queue, events, m, maxSize) + n - m
  {
    if m < n {
      EvictedGrows(queue, events, m, n - 1, maxSize);
    }
  }

  lemma {:induction false} LaterOfMore(queue: seq<Item>, events: seq<EventId>, more: seq<EventId>, n: nat, maxSize: nat)
    requires n <= |events|
    ensures Later(queue, events + more, n, maxSize) == Later(queue, events, n, maxSize)
  {
    if n > 0 {
      LaterOfMore(queue, events, more, n - 1, maxSize);
    }
  }

  lemma {:induction false} LaterOfBoth(queue: seq<Item>, events: seq<EventId>, more: seq<EventId>, n: nat, maxSize: nat)
    requires n <= |more|
    ensures Later(queue, events + more, |events| + n, maxSize) == Later(Later(queue, events, |events|, maxSize), more, n, maxSize)
  {
    if n > 0 {
      LaterOfBoth(queue, events, more, n - 1, maxSize);
      assert (events + more)[|events| + n - 1] == more[n - 1];
    } else {
      LaterOfMore(queue, events, more, |events|, maxSize);
    }
  }

  /** No eviction: the arrivals stand behind the queue. */
  lemma {:induction false} RoomForAll(queue: seq<Item>, events: seq<EventId>, n: nat, maxSize: nat)
    requires n <= |events| && |queue| + n <= maxSize
    ensures Evicted(queue, events, n, maxSize) == 0 && Later(queue, events, n, maxSize) == queue + NewItems(events[..n])
  {
    if n > 0 {
      RoomForAll(queue, events, n - 1, maxSize);
      assert NewItems(events[..n]) == NewItems(events[..n - 1]) + [Item(events[n - 1], 0)];
    } else {
      assert queue + NewItems(events[..0]) == queue;
    }
  }

  function Max(a: nat, b: nat): nat {
    if a > b then a else b
  }

  lemma {:induction false} LaterIsBounded(queue: seq<Item>, events: seq<EventId>, n: nat, maxSize: nat)
    requires n <= |events|
    ensures |queue| <= |Later(queue, events, n, maxSize)| <= Max(|queue|, maxSize + 1)
  {
    if n > 0 {
      LaterIsBounded(queue, events, n - 1, maxSize);
    }
  }

  /** Two lists of items of the same events; attempts may differ. */
  predicate SameEvents(a: seq<Item>, b: seq<Item>) {
    |a| == |b| && forall i :: 0 <= i < |a| ==> a[i].event == b[i].event
  }

  // ---------------------------------------------------------------- positions collected over a flush

  /** A position to remove, and how many events had arrived when its batch was taken. */
  datatype Mark = Mark(position: nat, arrived: nat)

  function Positions(marks: seq<Mark>): (r: seq<nat>)
    ensures |r| == |marks| && forall k :: 0 <= k < |marks| ==> r[k] == marks[k].position
  {
    seq(|marks|, k requires 0 <= k < |marks| => marks[k].position)
  }

  /** The positions are ascending, and each was one of the queue its batch was taken from. */
  ghost predicate Collected(queue: seq<Item>, events: seq<EventId>, maxSize: nat, marks: seq<Mark>) {
    && (forall k, l :: 0 <= k < l < |marks| ==> marks[k].position < marks[l].position && marks[k].arrived <= marks[l].arrived)
    && (forall k :: 0 <= k < |marks| ==>
          marks[k].arrived <= |events| && marks[k].position < |Later(queue, events, marks[k].arrived, maxSize)|)
  }

  /** The event a mark is for. */
  function EventOf(queue: seq<Item>, events: seq<EventId>, maxSize: nat, mark: Mark): EventId
    requires mark.arrived <= |events| && mark.position < |Later(queue, events, mark.arrived, maxSize)|
  {
    Later(queue, events, mark.arrived, maxSize)[mark.position].event
  }

  ghost predicate IsMarked(queue: seq<Item>, events: seq<EventId>, maxSize: nat, marks: seq<Mark>, e: EventId)
    requires Collected(queue, events, maxSize, marks)
  {
    exists k :: 0 <= k < |marks| && EventOf(queue, events, maxSize, marks[k]) == e
  }

  /** Where the marked events stand in the queue. */
  ghost function MarkedAt(queue: seq<Item>, events: seq<EventId>, maxSize: nat, marks: seq<Mark>, items: seq<Item>): set<nat>
    requires Collected(queue, events, maxSize, marks)
  {
    set i | 0 <= i < |items| && IsMarked(queue, events, maxSize, marks, items[i].event)
  }

  /** No event was evicted after the batch of any mark had been taken. */
  ghost predicate NoneEvictedSince(queue: seq<Item>, events: seq<EventId>, maxSize: nat, marks: seq<Mark>)
    requires Collected(queue, events, maxSize, marks)
  {
    forall k :: 0 <= k < |marks| ==>
      Evicted(queue, events, marks[k].arrived, maxSize) == Evicted(queue, events, |events|, maxSize)
  }

  /** Seen from the start, the item at a position has moved to the front by the evictions so far. */
  function Origin(queue: seq<Item>, events: seq<EventId>, maxSize: nat, mark: Mark): nat
    requires mark.arrived <= |events|
  {
    mark.position + Evicted(queue, events, mark.arrived, maxSize)
  }

  lemma OriginIs(queue: seq<Item>, events: seq<EventId>, maxSize: nat, mark: Mark)
    requires mark.arrived <= |events| && mark.position < |Later(queue, events, mark.arrived, maxSize)|
    ensures var all := queue + NewItems(events);
      && Origin(queue, events, maxSize, mark) < |all|
      && EventOf(queue, events, maxSize, mark) == all[Origin(queue, events, maxSize, mark)].event
      && mark.position < |Later(queue, events, |events|, maxSize)|
  {
    LaterIs(queue, events, mark.arrived, maxSize);
    LaterIs(queue, events, |events|, maxSize);
    EvictedGrows(queue, events, mark.arrived, |events|, maxSize);
    hide Later, Evicted;
  }

  lemma FinalEvents(queue: seq<Item>, events: seq<EventId>, maxSize: nat, items: seq<Item>)
    requires SameEvents(items, Later(queue, events, |events|, maxSize))
    ensures var all, e := queue + NewItems(events), Evicted(queue, events, |events|, maxSize);
      |items| + e == |all| && forall i :: 0 <= i < |items| ==> items[i].event == all[i + e].event
  {
    LaterIs(queue, events, |events|, maxSize);
    hide Later, Evicted;
  }

  /** A position holds a marked event exactly when a mark has the same origin. */
  lemma MarkedAtIs(queue: seq<Item>, events: seq<EventId>, maxSize: nat, marks: seq<Mark>, items: seq<Item>, i: nat)
    requires DistinctEvents(queue + NewItems(events)) && Collected(queue, events, maxSize, marks)
    requires SameEvents(items, Later(queue, events, |events|, maxSize)) && i < |items|
    ensures i in MarkedAt(queue, events, maxSize, marks, items) <==>
      exists k :: 0 <= k < |marks| && Origin(queue, events, maxSize, marks[k]) == i + Evicted(queue, events, |events|, maxSize)
  {
    FinalEvents(queue, events, maxSize, items);
    forall k | 0 <= k < |marks|
      ensures Origin(queue, events, maxSize, marks[k]) < |queue + NewItems(events)|
      ensures EventOf(queue, events, maxSize, marks[k]) == (queue + NewItems(events))[Origin(queue, events, maxSize, marks[k])].event
    {
      OriginIs(queue, events, maxSize, marks[k]);
    }
    hide Later, Evicted, Origin, EventOf, NewItems;
  }

  lemma PositionsFit(queue: seq<Item>, events: seq<EventId>, maxSize: nat, marks: seq<Mark>, items: seq<Item>)
    requires Collected(queue, events, maxSize, marks) && SameEvents(items, Later(queue, events, |events|, maxSize))
    ensures Ascending(Positions(marks)) && InRange(Positions(marks), |items|)
  {
    forall k | 0 <= k < |marks| ensures marks[k].position < |items| { OriginIs(queue, events, maxSize, marks[k]); }
    hide Later;
  }

  /** The last position that the evictions have shifted is where no shifted position is by now. */
  lemma LastShifted(positions: seq<nat>, evicted: seq<nat>, end: nat) returns (k: nat)
    requires |positions| == |evicted| && Ascending(positions) && forall i :: 0 <= i < |evicted| ==> evicted[i] <= end
    requires forall i, j :: 0 <= i <= j < |evicted| ==> evicted[i] <= evicted[j]
    requires exists i :: 0 <= i < |evicted| && evicted[i] != end
    ensures k < |positions| && forall l :: 0 <= l < |positions| ==> positions[l] + evicted[l] != positions[k] + end
  {
    k := |evicted| - 1;
    while evicted[k] == end
      invariant k < |evicted| && forall i :: k < i < |evicted| ==> evicted[i] == end
      decreases k
    {
      if k == 0 {
        assert false;
      }
      k := k - 1;
    }
    forall l | 0 <= l < |positions| ensures positions[l] + evicted[l] != positions[k] + end {
      assert l > k || positions[l] <= positions[k];
    }
  }

  function EvictedAt(queue: seq<Item>, events: seq<EventId>, maxSize: nat, marks: seq<Mark>): (r: seq<nat>)
    requires forall k :: 0 <= k < |marks| ==> marks[k].arrived <= |events|
    ensures |r| == |marks|
  {
    seq(|marks|, k requires 0 <= k < |marks| => Evicted(queue, events, marks[k].arrived, maxSize))
  }

  lemma EvictedAtGrows(queue: seq<Item>, events: seq<EventId>, maxSize: nat, marks: seq<Mark>)
    requires forall k :: 0 <= k < |marks| ==> marks[k].arrived <= |events|
    requires forall k, l :: 0 <= k < l < |marks| ==> marks[k].arrived <= marks[l].arrived
    ensures var vs := EvictedAt(queue, events, maxSize, marks);
      && (forall i, j :: 0 <= i <= j < |vs| ==> vs[i] <= vs[j])
      && (forall i :: 0 <= i < |vs| ==> vs[i] <= Evicted(queue, events, |events|, maxSize))
  {
    hide Evicted;
    var vs := EvictedAt(queue, events, maxSize, marks);
    forall i, j | 0 <= i <= j < |vs| ensures vs[i] <= vs[j] {
      EvictedGrows(queue, events, marks[i].arrived, marks[j].arrived, maxSize);
    }
    forall i | 0 <= i < |vs| ensures vs[i] <= Evicted(queue, events, |events|, maxSize) {
      EvictedGrows(queue, events, marks[i].arrived, |events|, maxSize);
    }
  }

  /** If some mark was taken before an eviction, the last such one names another event by now. */
  lemma LastEarlyMark(queue: seq<Item>, events: seq<EventId>, maxSize: nat, marks: seq<Mark>) returns (k: nat)
    requires Collected(queue, events, maxSize, marks) && !NoneEvictedSince(queue, events, maxSize, marks)
    ensures k < |marks|
    ensures forall l :: 0 <= l < |marks| ==>
      Origin(queue, events, maxSize, marks[l]) != marks[k].position + Evicted(queue, events, |events|, maxSize)
  {
    hide Later, Evicted;
    EvictedAtGrows(queue, events, maxSize, marks);
    var evicted, end := EvictedAt(queue, events, maxSize, marks), Evicted(queue, events, |events|, maxSize);
    assert exists i :: 0 <= i < |evicted| && evicted[i] != end by {
      var i :| 0 <= i < |marks| && Evicted(queue, events, marks[i].arrived, maxSize) != end;
      assert evicted[i] != end;
    }
    k := LastShifted(Positions(marks), evicted, end);
    forall l | 0 <= l < |marks| ensures Origin(queue, events, maxSize, marks[l]) != marks[k].position + end {
      assert Positions(marks)[l] + evicted[l] != Positions(marks)[k] + end;
    }
  }

  lemma {:induction false} WithoutSame(items: seq<Item>, a: set<nat>, b: set<nat>, i: nat)
    requires i <= |items| && forall k :: i <= k < |items| ==> (k in a <==> k in b)
    ensures Without(items, a, i) == Without(items, b, i)
    decreases |items| - i
  {
    if i < |items| {
      WithoutSame(items, a, b, i + 1);
    }
  }

  lemma FinalIsDistinct(queue: seq<Item>, events: seq<EventId>, maxSize: nat, items: seq<Item>)
    requires DistinctEvents(queue + NewItems(events)) && SameEvents(items, Later(queue, events, |events|, maxSize))
    ensures Distinct(items)
  {
    FinalEvents(queue, events, maxSize, items);
    hide Later, Evicted, NewItems;
  }

  /** A mark taken before an eviction makes the removal take an item that no mark is for. */
  lemma EarlyMarkRemovesAnother(queue: seq<Item>, events: seq<EventId>, maxSize: nat, marks: seq<Mark>, items: seq<Item>)
    requires DistinctEvents(queue + NewItems(events)) && Collected(queue, events, maxSize, marks)
    requires SameEvents(items, Later(queue, events, |events|, maxSize)) && !NoneEvictedSince(queue, events, maxSize, marks)
    ensures Without(items, AsSet(Positions(marks)), 0) != Without(items, MarkedAt(queue, events, maxSize, marks, items), 0)
  {
    var gone := MarkedAt(queue, events, maxSize, marks, items);
    PositionsFit(queue, events, maxSize, marks, items);
    FinalIsDistinct(queue, events, maxSize, items);
    hide Later, Evicted, Without, MarkedAt, DistinctEvents, Distinct, Collected, NoneEvictedSince, Origin, NewItems, SameEvents;
    var k := LastEarlyMark(queue, events, maxSize, marks);
    var q := marks[k].position;
    assert Positions(marks)[k] == q && q in AsSet(Positions(marks));
    MarkedAtIs(queue, events, maxSize, marks, items, q);
    WithoutHas(items, gone, 0, q);
    WithoutHas(items, AsSet(Positions(marks)), 0, q);
  }

  lemma LateMarksRemoveMarked(queue: seq<Item>, events: seq<EventId>, maxSize: nat, marks: seq<Mark>, items: seq<Item>)
    requires DistinctEvents(queue + NewItems(events)) && Collected(queue, events, maxSize, marks)
    requires SameEvents(items, Later(queue, events, |events|, maxSize)) && NoneEvictedSince(queue, events, maxSize, marks)
    ensures Without(items, AsSet(Positions(marks)), 0) == Without(items, MarkedAt(queue, events, maxSize, marks, items), 0)
  {
    var gone := MarkedAt(queue, events, maxSize, marks, items);
    hide Later, Evicted, Without, MarkedAt, DistinctEvents, NewItems, SameEvents;
    forall i | 0 <= i < |items| ensures i in AsSet(Positions(marks)) <==> i in gone {
      MarkedAtIs(queue, events, maxSize, marks, items, i);
    }
    WithoutSame(items, AsSet(Positions(marks)), gone, 0);
  }

  /**
   * The removal at the end of a flush takes exactly the events its marks are for out of the queue,
   * if and only if no event was evicted after a marked event's batch had been taken.
   */
  lemma RemovesMarkedIffNoneEvictedSince(queue: seq<Item>, events: seq<EventId>, maxSize: nat, marks: seq<Mark>, items: seq<Item>)
    requires DistinctEvents(queue + NewItems(events)) && Collected(queue, events, maxSize, marks)
    requires SameEvents(items, Later(queue, events, |events|, maxSize))
    ensures SpliceOut(items, Positions(marks)) == Without(items, MarkedAt(queue, events, maxSize, marks, items), 0)
      <==> NoneEvictedSince(queue, events, maxSize, marks)
  {
    PositionsFit(queue, events, maxSize, marks, items);
    AscendingRemovesMarked(items, Positions(marks));
    hide Later, Without, SpliceOut, MarkedAt, DistinctEvents, Collected, NoneEvictedSince, NewItems, SameEvents, AsSet, Positions;
    if NoneEvictedSince(queue, events, maxSize, marks) {
      LateMarksRemoveMarked(queue, events, maxSize, marks, items);
    } else {
      EarlyMarkRemovesAnother(queue, events, maxSize, marks, items);
    }
  }

  // ---------------------------------------------------------------- the batches of a flush

  /** The positions handled so far, each with how many events had arrived when its batch was taken. */
  ghost predicate Batches(queue: seq<Item>, events: seq<EventId>, maxSize: nat, taken: map<nat, nat>, cursor: nat) {
    && (forall p :: p in taken ==> p < cursor && taken[p] <= |events| && p < |Later(queue, events, taken[p], maxSize)|)
    && (forall p, q :: p in taken && q in taken && p < q ==> taken[p] <= taken[q])
  }

  /** The marks are for exactly the handled items that leave. */
  ghost predicate Leaving(queue: seq<Item>, events: seq<EventId>, maxSize: nat, taken: map<nat, nat>, cursor: nat, marks: seq<Mark>,
                          results: nat -> seq<bool>, max: nat)
    requires Batches(queue, events, maxSize, taken, cursor)
  {
    && (forall k, l :: 0 <= k < l < |marks| ==> marks[k].position < marks[l].position)
    && (forall k :: 0 <= k < |marks| ==> marks[k].position in taken && marks[k].arrived == taken[marks[k].position])
    && (forall p :: p in taken ==>
          (p in Positions(marks) <==> Settle(Later(queue, events, taken[p], maxSize)[p], results(p), max).None?))
  }

  lemma LeavingAreCollected(queue: seq<Item>, events: seq<EventId>, maxSize: nat, taken: map<nat, nat>, cursor: nat, marks: seq<Mark>,
                            results: nat -> seq<bool>, max: nat)
    requires Batches(queue, events, maxSize, taken, cursor) && Leaving(queue, events, maxSize, taken, cursor, marks, results, max)
    ensures Collected(queue, events, maxSize, marks)
  {
    hide Later, Settle;
  }

  /** The queue now: the same events as without settling, and from the cursor on the same items. */
  predicate Current(queue: seq<Item>, unsettled: seq<Item>, cursor: nat) {
    SameEvents(queue, unsettled) && forall p :: cursor <= p < |queue| ==> queue[p] == unsettled[p]
  }

  function MarksOf(positions: seq<nat>, arrived: nat): (r: seq<Mark>)
    ensures |r| == |positions| && Positions(r) == positions && forall k :: 0 <= k < |r| ==> r[k].arrived == arrived
  {
    seq(|positions|, k requires 0 <= k < |positions| => Mark(positions[k], arrived))
  }

  function TakenAt(low: nat, high: nat, arrived: nat): (r: map<nat, nat>)
    requires low <= high
    ensures r.Keys == Span(low, high)
  {
    map p | p in Span(low, high) :: arrived
  }

  lemma PositionsOfBoth(a: seq<Mark>, b: seq<Mark>)
    ensures Positions(a + b) == Positions(a) + Positions(b)
  {
  }

  lemma BatchIsTaken(queue: seq<Item>, events: seq<EventId>, maxSize: nat, taken: map<nat, nat>, low: nat, high: nat, next: nat)
    requires Batches(queue, events, maxSize, taken, low)
    requires low <= high <= |Later(queue, events, |events|, maxSize)| && high <= next
    ensures Batches(queue, events, maxSize, taken + TakenAt(low, high, |events|), next)
  {
    hide Later;
  }

  lemma BatchIsAscending(taken: map<nat, nat>, marks: seq<Mark>, leaving: seq<nat>, low: nat, high: nat, arrived: nat)
    requires low <= high && (forall p :: p in taken ==> p < low)
    requires forall k, l :: 0 <= k < l < |marks| ==> marks[k].position < marks[l].position
    requires forall k :: 0 <= k < |marks| ==> marks[k].position in taken && marks[k].arrived == taken[marks[k].position]
    requires forall k :: 0 <= k < |leaving| ==> low <= leaving[k] < high
    requires forall k, l :: 0 <= k < l < |leaving| ==> leaving[k] < leaving[l]
    ensures var all, more := marks + MarksOf(leaving, arrived), taken + TakenAt(low, high, arrived);
      && (forall k, l :: 0 <= k < l < |all| ==> all[k].position < all[l].position)
      && (forall k :: 0 <= k < |all| ==> all[k].position in more && all[k].arrived == more[all[k].position])
  {
    var added := MarksOf(leaving, arrived);
    forall k | 0 <= k < |added| ensures added[k].position == leaving[k] { assert Positions(added)[k] == added[k].position; }
    hide MarksOf, Positions;
  }

  lemma BatchMarks(marks: seq<Mark>, leaving: seq<nat>, arrived: nat, p: nat)
    ensures p in Positions(marks + MarksOf(leaving, arrived)) <==> p in Positions(marks) || p in leaving
  {
    PositionsOfBoth(marks, MarksOf(leaving, arrived));
  }

  /** One batch, of the queue as it is when it is taken. */
  lemma BatchLeaves(queue: seq<Item>, events: seq<EventId>, maxSize: nat, taken: map<nat, nat>, marks: seq<Mark>, leaving: seq<nat>,
                    low: nat, high: nat, next: nat, was: seq<Item>, items: seq<Item>, results: nat -> seq<bool>, max: nat)
    requires Batches(queue, events, maxSize, taken, low) && Leaving(queue, events, maxSize, taken, low, marks, results, max)
    requires var whole := Later(queue, events, |events|, maxSize);
      low <= high <= |whole| && high <= next && |was| == |whole| && Batched(whole, was, items, low, high, leaving, results, max)
    ensures var more := TakenAt(low, high, |events|);
      && Batches(queue, events, maxSize, taken + more, next)
      && Leaving(queue, events, maxSize, taken + more, next, marks + MarksOf(leaving, |events|), results, max)
  {
    var all, more := marks + MarksOf(leaving, |events|), taken + TakenAt(low, high, |events|);
    BatchIsTaken(queue, events, maxSize, taken, low, high, next);
    BatchIsAscending(taken, marks, leaving, low, high, |events|);
    hide Later, Settle, Positions, MarksOf;
    forall p | p in more
      ensures p in Positions(all) <==> Settle(Later(queue, events, more[p], maxSize)[p], results(p), max).None?
    {
      BatchMarks(marks, leaving, |events|, p);
      if low <= p < high {
        assert p !in taken;
      } else {
        assert p in taken && p !in leaving;
      }
    }
  }

  lemma BatchKeepsEvents(whole: seq<Item>, was: seq<Item>, items: seq<Item>, low: nat, high: nat, next: nat, leaving: seq<nat>,
                         results: nat -> seq<bool>, max: nat)
    requires low <= high <= |whole| && (high == |whole| || high == next) && high <= next && Current(was, whole, low)
    requires Batched(whole, was, items, low, high, leaving, results, max)
    ensures Current(items, whole, next)
  {
    hide AllFailed;
  }

  lemma {:induction false} ArrivalsKeepCurrent(items: seq<Item>, unsettled: seq<Item>, cursor: nat, more: seq<EventId>, n: nat, maxSize: nat)
    requires Current(items, unsettled, cursor) && n <= |more|
    ensures Current(Later(items, more, n, maxSize), Later(unsettled, more, n, maxSize), cursor)
  {
    if n > 0 {
      ArrivalsKeepCurrent(items, unsettled, cursor, more, n - 1, maxSize);
    }
  }

  lemma ArrivalsKeepBatches(queue: seq<Item>, events: seq<EventId>, more: seq<EventId>, maxSize: nat, taken: map<nat, nat>, cursor: nat,
                            marks: seq<Mark>, results: nat -> seq<bool>, max: nat)
    requires Batches(queue, events, maxSize, taken, cursor) && Leaving(queue, events, maxSize, taken, cursor, marks, results, max)
    ensures Batches(queue, events + more, maxSize, taken, cursor)
    ensures Leaving(queue, events + more, maxSize, taken, cursor, marks, results, max)
  {
    forall n | 0 <= n <= |events| ensures Later(queue, events + more, n, maxSize) == Later(queue, events, n, maxSize) {
      LaterOfMore(queue, events, more, n, maxSize);
    }
    hide Later, Settle;
  }

  // ---------------------------------------------------------------- flushes without an eviction

  /** As long as there is room for all events, the progress is that of a queue with the arrivals behind it. */
  ghost predicate ProgressIfRoom(queue: seq<Item>, events: seq<EventId>, maxSize: nat, items: seq<Item>, taken: map<nat, nat>,
                                 marks: seq<nat>, cursor: nat, results: nat -> seq<bool>, max: nat) {
    |queue| + |events| <= maxSize ==> Progress(queue + NewItems(events), items, taken.Keys, marks, cursor, results, max)
  }

  lemma RoomForAllEvents(queue: seq<Item>, events: seq<EventId>, maxSize: nat)
    requires |queue| + |events| <= maxSize
    ensures Later(queue, events, |events|, maxSize) == queue + NewItems(events)
  {
    RoomForAll(queue, events, |events|, maxSize);
    assert events[..|events|] == events;
  }

  lemma BatchProgressesIfRoom(queue: seq<Item>, events: seq<EventId>, maxSize: nat, was: seq<Item>, items: seq<Item>, taken: map<nat, nat>,
                              marks: seq<nat>, leaving: seq<nat>, low: nat, high: nat, next: nat, results: nat -> seq<bool>, max: nat)
    requires ProgressIfRoom(queue, events, maxSize, was, taken, marks, low, results, max)
    requires var whole := Later(queue, events, |events|, maxSize);
      low <= high <= |whole| && high <= next && |was| == |whole| && Batched(whole, was, items, low, high, leaving, results, max)
    ensures ProgressIfRoom(queue, events, maxSize, items, taken + TakenAt(low, high, |events|), marks + leaving, next, results, max)
  {
    hide Later, Progress, Batched, NewItems;
    if |queue| + |events| <= maxSize {
      RoomForAllEvents(queue, events, maxSize);
      BatchProgresses(queue + NewItems(events), was, items, taken.Keys, marks, leaving, low, high, next, results, max);
      assert (taken + TakenAt(low, high, |events|)).Keys == taken.Keys + Span(low, high);
    }
  }

  lemma ArrivalsProgressIfRoom(queue: seq<Item>, events: seq<EventId>, more: seq<EventId>, maxSize: nat, items: seq<Item>,
                               taken: map<nat, nat>, marks: seq<nat>, cursor: nat, results: nat -> seq<bool>, max: nat)
    requires ProgressIfRoom(queue, events, maxSize, items, taken, marks, cursor, results, max)
    ensures ProgressIfRoom(queue, events + more, maxSize, Later(items, more, |more|, maxSize), taken, marks, cursor, results, max)
  {
    hide Later, Progress, NewItems;
    if |queue| + |events + more| <= maxSize {
      ArrivalsProgress(queue + NewItems(events), items, taken.Keys, marks, cursor, NewItems(more), results, max);
      NewItemsOfBoth(queue, events, more);
      Unhandled(queue + NewItems(events), items, taken.Keys, marks, cursor, results, max);
      RoomForAllEvents(items, more, maxSize);
    }
  }

  lemma NewItemsOfBoth(queue: seq<Item>, events: seq<EventId>, more: seq<EventId>)
    ensures queue + NewItems(events + more) == queue + NewItems(events) + NewItems(more)
    ensures |queue + NewItems(events)| == |queue| + |events|
  {
  }

  // ---------------------------------------------------------------- the loop of a flush

  lemma FromCursorOn(queue: seq<Item>, unsettled: seq<Item>, cursor: nat)
    requires Current(queue, unsettled, cursor)
    ensures |queue| == |unsettled| && forall p :: cursor <= p < |queue| ==> queue[p] == unsettled[p]
  {
  }

  lemma NothingYet(arrivals: nat -> seq<EventId>, queue: seq<Item>, maxSize: nat, results: nat -> seq<bool>, max: nat)
    ensures Arrived(arrivals, 0) == [] && Positions([]) == [] && Later(queue, [], 0, maxSize) == queue
    ensures Batches(queue, [], maxSize, map[], 0) && Leaving(queue, [], maxSize, map[], 0, [], results, max)
    ensures Current(queue, queue, 0) && ProgressIfRoom(queue, [], maxSize, queue, map[], [], 0, results, max)
  {
    assert queue + NewItems([]) == queue;
  }

  lemma ArriveMore(arrivals: nat -> seq<EventId>, n: nat, queue: seq<Item>, maxSize: nat)
    ensures var events, more := Arrived(arrivals, n), arrivals(n);
      && Arrived(arrivals, n + 1) == events + more
      && Later(queue, events + more, |events + more|, maxSize) == Later(Later(queue, events, |events|, maxSize), more, |more|, maxSize)
      && |queue| <= |Later(queue, events + more, |events + more|, maxSize)| <= Max(|queue|, maxSize + 1)
      && |Later(queue, events, |events|, maxSize)| <= |Later(queue, events + more, |events + more|, maxSize)|
  {
    var events, more := Arrived(arrivals, n), arrivals(n);
    LaterIsBounded(Later(queue, events, |events|, maxSize), more, |more|, maxSize);
    LaterOfBoth(queue, events, more, |more|, maxSize);
    LaterIsBounded(queue, events + more, |events + more|, maxSize);
    hide Later;
  }

  lemma LaterCursor(queue: seq<Item>, events: seq<EventId>, maxSize: nat, taken: map<nat, nat>, cursor: nat, next: nat, marks: seq<Mark>,
                    results: nat -> seq<bool>, max: nat)
    requires Batches(queue, events, maxSize, taken, cursor) && Leaving(queue, events, maxSize, taken, cursor, marks, results, max)
    requires cursor <= next
    ensures Batches(queue, events, maxSize, taken, next) && Leaving(queue, events, maxSize, taken, next, marks, results, max)
  {
    hide Later, Settle;
  }

  /** With room for all events, splicing the positions out leaves the survivors. */
  lemma SurvivorsIfRoom(queue: seq<Item>, events: seq<EventId>, maxSize: nat, items: seq<Item>, taken: map<nat, nat>, marks: seq<nat>,
                        cursor: nat, results: nat -> seq<bool>, max: nat)
    requires ProgressIfRoom(queue, events, maxSize, items, taken, marks, cursor, results, max) && |queue| + |events| <= maxSize
    ensures SpliceOut(items, marks) == Survivors(queue + NewItems(events), taken.Keys, results, max, 0)
  {
    AscendingRemovesMarked(items, marks);
    assert forall j :: j in AsSet(marks) <==> j in marks;
    hide Settle, Without, Survivors, SpliceOut, AsSet, NewItems;
    WithoutIsSurvivors(queue + NewItems(events), items, taken.Keys, AsSet(marks), results, max, 0);
  }

  lemma SameEventsNow(queue: seq<Item>, unsettled: seq<Item>, cursor: nat)
    requires Current(queue, unsettled, cursor)
    ensures SameEvents(queue, unsettled)
  {
  }
}
