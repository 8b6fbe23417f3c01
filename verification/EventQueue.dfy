/** What a flush of the delivery queue means, as functions on the queue's contents. */
module QueueSteps {
  import opened Options

  type EventId = nat

  datatype Item = Item(event: EventId, attempts: int)

  /** There are webhooks, and none of them took the event. */
  predicate AllFailed(results: seq<bool>) {
    |results| > 0 && forall i :: 0 <= i < |results| ==> !results[i]
  }

  /** An item that all webhooks failed is kept for another attempt while it has attempts left. */
  function Settle(item: Item, results: seq<bool>, max: nat): Option<Item> {
    if AllFailed(results) && item.attempts < max then Some(item.(attempts := item.attempts + 1)) else None
  }

  /** The queue after a flush: handled items are settled, the others stay, the order stays. */
  function Survivors(items: seq<Item>, handled: set<nat>, results: nat -> seq<bool>, max: nat, i: nat): seq<Item>
    requires i <= |items|
    decreases |items| - i
  {
    if i == |items| then []
    else (if i in handled then ToSeq(Settle(items[i], results(i), max)) else [items[i]]) + Survivors(items, handled, results, max, i + 1)
  }

  /** The items from position i on whose positions are not gone. */
  function Without(items: seq<Item>, gone: set<nat>, i: nat): seq<Item>
    requires i <= |items|
    decreases |items| - i
  {
    if i == |items| then [] else (if i in gone then [] else [items[i]]) + Without(items, gone, i + 1)
  }

  lemma {:induction false} NothingGone(items: seq<Item>, gone: set<nat>, a: nat, b: nat)
    requires a <= b <= |items| && forall i :: a <= i < b ==> i !in gone
    ensures Without(items, gone, a) == items[a..b] + Without(items, gone, b)
    decreases b - a
  {
    if a < b {
      NothingGone(items, gone, a + 1, b);
      assert Without(items, gone, a) == [items[a]] + Without(items, gone, a + 1);
      hide Without;
      Regroup([items[a]], items[a + 1..b], Without(items, gone, b));
      assert items[a..b] == [items[a]] + items[a + 1..b];
    } else {
      assert items[a..b] == [];
    }
  }

  lemma Regroup<T>(a: seq<T>, b: seq<T>, c: seq<T>)
    ensures a + (b + c) == (a + b) + c
  {
  }

  /** Removing the position cuts the item out of the tail. */
  lemma RemoveOne(items: seq<Item>, gone: set<nat>, q: nat, p: nat)
    requires q < p <= |items| && q in gone && forall i :: q < i < p ==> i !in gone
    ensures var s := items[..p] + Without(items, gone, p); s[..q] + s[q + 1..] == items[..q] + Without(items, gone, q)
  {
    NothingGone(items, gone, q + 1, p);
    var tail := Without(items, gone, p);
    var s := items[..p] + tail;
    assert s[..q] == items[..q];
    assert s[q + 1..] == items[q + 1..p] + tail;
    assert Without(items, gone, q) == [] + Without(items, gone, q + 1);
  }

  /** Settled items in place, leaving ones marked: what stays are the survivors. */
  lemma {:induction false} WithoutIsSurvivors(whole: seq<Item>, items: seq<Item>, handled: set<nat>, gone: set<nat>,
                                              results: nat -> seq<bool>, max: nat, i: nat)
    requires |whole| == |items| && i <= |items|
    requires forall j :: i <= j < |items| ==> (j in gone <==> j in handled && Settle(whole[j], results(j), max).None?)
    requires forall j :: i <= j < |items| && j !in gone ==>
      items[j] == if j in handled then Settle(whole[j], results(j), max).value else whole[j]
    ensures Without(items, gone, i) == Survivors(whole, handled, results, max, i)
    decreases |items| - i
  {
    hide Settle;
    if i < |items| {
      WithoutIsSurvivors(whole, items, handled, gone, results, max, i + 1);
    }
  }

  /** After the batches below the cursor: handled items settled in place, the positions of leaving ones collected. */
  ghost predicate Progress(whole: seq<Item>, items: seq<Item>, handled: set<nat>, marks: seq<nat>, cursor: nat,
                           results: nat -> seq<bool>, max: nat) {
    && |items| == |whole|
    && (forall i :: i in handled ==> i < cursor && i < |items|)
    && (forall k :: 0 <= k < |marks| ==> marks[k] < cursor && marks[k] < |items|)
    && (forall k, l :: 0 <= k < l < |marks| ==> marks[k] < marks[l])
    && (forall j :: 0 <= j < |items| ==> (j in marks <==> j in handled && Settle(whole[j], results(j), max).None?))
    && (forall j :: 0 <= j < |items| ==>
          items[j] == if j in handled then Settle(whole[j], results(j), max).GetOr(whole[j]) else whole[j])
  }

  /** One batch: the items from the cursor on are settled, in order. */
  ghost predicate Batched(whole: seq<Item>, was: seq<Item>, items: seq<Item>, from: nat, to: nat, leaving: seq<nat>,
                          results: nat -> seq<bool>, max: nat)
    requires from <= to <= |whole| && |whole| == |was|
  {
    && |items| == |was| && (forall j :: 0 <= j < |items| && !(from <= j < to) ==> items[j] == was[j])
    && (forall j :: from <= j < to ==> items[j] == Settle(whole[j], results(j), max).GetOr(whole[j]))
    && (forall k :: 0 <= k < |leaving| ==> from <= leaving[k] < to)
    && (forall k, l :: 0 <= k < l < |leaving| ==> leaving[k] < leaving[l])
    && (forall j :: from <= j < to ==> (j in leaving <==> Settle(whole[j], results(j), max).None?))
  }

  function Span(low: nat, high: nat): (r: set<nat>)
    requires low <= high
    ensures forall j :: j in r <==> low <= j < high
    decreases high - low
  {
    if low == high then {} else {low} + Span(low + 1, high)
  }

  lemma Unhandled(whole: seq<Item>, items: seq<Item>, handled: set<nat>, marks: seq<nat>, cursor: nat, results: nat -> seq<bool>, max: nat)
    requires Progress(whole, items, handled, marks, cursor, results, max)
    ensures |items| == |whole| && forall j :: cursor <= j < |items| ==> items[j] == whole[j]
  {
  }

  lemma BatchProgresses(whole: seq<Item>, was: seq<Item>, items: seq<Item>, handled: set<nat>, marks: seq<nat>, leaving: seq<nat>,
                        from: nat, to: nat, next: nat, results: nat -> seq<bool>, max: nat)
    requires from <= to <= |whole| && to <= next && Progress(whole, was, handled, marks, from, results, max)
    requires Batched(whole, was, items, from, to, leaving, results, max)
    ensures Progress(whole, items, handled + Span(from, to), marks + leaving, next, results, max)
  {
    hide Settle, Span;
    var all := marks + leaving;
    forall j | 0 <= j < |items|
      ensures j in all <==> j in handled + Span(from, to) && Settle(whole[j], results(j), max).None?
    {
      assert j in all <==> j in marks || j in leaving;
    }
  }

  lemma ArrivalsProgress(whole: seq<Item>, items: seq<Item>, handled: set<nat>, marks: seq<nat>, cursor: nat, more: seq<Item>,
                         results: nat -> seq<bool>, max: nat)
    requires Progress(whole, items, handled, marks, cursor, results, max)
    ensures Progress(whole + more, items + more, handled, marks, cursor, results, max)
  {
    hide Settle;
  }

  /** Events that arrive after the first n batches. */
  function Arrived(arrivals: nat -> seq<EventId>, n: nat): seq<EventId> {
    if n == 0 then [] else Arrived(arrivals, n - 1) + arrivals(n - 1)
  }

  function NewItems(events: seq<EventId>): seq<Item> {
    seq(|events|, i requires 0 <= i < |events| => Item(events[i], 0))
  }

  /** A full queue loses its oldest item to the new one. */
  function Pushed(queue: seq<Item>, event: EventId, maxSize: nat): seq<Item> {
    (if |queue| >= maxSize && queue != [] then queue[1..] else queue) + [Item(event, 0)]
  }

  // ---------------------------------------------------------------- removal by position

  /** The removal loop: positions are spliced out from the last collected to the first. */
  function SpliceOut(items: seq<Item>, marks: seq<nat>): seq<Item> {
    if marks == [] then items else SpliceOut(Splice(items, marks[|marks| - 1]), marks[..|marks| - 1])
  }

  /** Splicing beyond the end removes nothing. */
  function Splice(items: seq<Item>, q: nat): seq<Item> {
    if q < |items| then items[..q] + items[q + 1..] else items
  }

  predicate Ascending(marks: seq<nat>) {
    forall k, l :: 0 <= k < l < |marks| ==> marks[k] < marks[l]
  }

  predicate InRange(marks: seq<nat>, n: nat) {
    forall k :: 0 <= k < |marks| ==> marks[k] < n
  }

  function AsSet(marks: seq<nat>): set<nat> {
    set k | 0 <= k < |marks| :: marks[k]
  }

  lemma {:induction false} AscendingFrom(items: seq<Item>, marks: seq<nat>, k: nat, p: nat)
    requires k <= |marks| && Ascending(marks) && InRange(marks, |items|) && p == if k < |marks| then marks[k] else |items|
    ensures SpliceOut(items[..p] + Without(items, AsSet(marks), p), marks[..k]) == Without(items, AsSet(marks), 0)
    decreases k
  {
    hide Without, SpliceOut;
    var gone, list := AsSet(marks), items[..p] + Without(items, AsSet(marks), p);
    if k == 0 {
      NothingMarkedBelow(items, marks, p);
      NothingSpliced(list, marks);
    } else {
      var q := marks[k - 1];
      NothingMarkedBetween(marks, k, |items|);
      hide AsSet, Ascending, InRange;
      RemoveOne(items, gone, q, p);
      LastSpliced(list, marks, k);
      AscendingFrom(items, marks, k - 1, q);
    }
  }

  lemma NothingSpliced(list: seq<Item>, marks: seq<nat>)
    ensures SpliceOut(list, marks[..0]) == list
  {
    assert marks[..0] == [];
  }

  lemma NothingMarkedBelow(items: seq<Item>, marks: seq<nat>, p: nat)
    requires Ascending(marks) && InRange(marks, |items|) && p == if marks != [] then marks[0] else |items|
    ensures items[..p] + Without(items, AsSet(marks), p) == Without(items, AsSet(marks), 0)
  {
    assert forall i :: 0 <= i < p ==> i !in AsSet(marks);
    hide Without, AsSet;
    NothingGone(items, AsSet(marks), 0, p);
    assert items[0..p] == items[..p];
  }

  lemma NothingMarkedBetween(marks: seq<nat>, k: nat, n: nat)
    requires 0 < k <= |marks| && Ascending(marks) && InRange(marks, n)
    ensures var q, p := marks[k - 1], if k < |marks| then marks[k] else n;
      q in AsSet(marks) && q < p && forall i :: q < i < p ==> i !in AsSet(marks)
    ensures InRange(marks[..k - 1], n)
  {
  }

  lemma LastSpliced(list: seq<Item>, marks: seq<nat>, k: nat)
    requires 0 < k <= |marks| && marks[k - 1] < |list|
    ensures var q := marks[k - 1]; SpliceOut(list, marks[..k]) == SpliceOut(list[..q] + list[q + 1..], marks[..k - 1])
  {
    assert marks[..k][..k - 1] == marks[..k - 1] && marks[..k][k - 1] == marks[k - 1];
  }

  /** Ascending positions are removed as they should be. */
  lemma AscendingRemovesMarked(items: seq<Item>, marks: seq<nat>)
    requires Ascending(marks) && InRange(marks, |items|)
    ensures SpliceOut(items, marks) == Without(items, AsSet(marks), 0)
  {
    AscendingFrom(items, marks, |marks|, |items|);
    assert items[..|items|] + Without(items, AsSet(marks), |items|) == items && marks[..|marks|] == marks;
  }

  // ---------------------------------------------------------------- no other order of the positions works

  type Weight = Item -> nat

  function Weigh(items: seq<Item>, w: Weight): nat {
    if items == [] then 0 else Weigh(items[..|items| - 1], w) + w(items[|items| - 1])
  }

  function Sum(marks: seq<nat>): nat {
    if marks == [] then 0 else Sum(marks[..|marks| - 1]) + marks[|marks| - 1]
  }

  ghost predicate Rising(items: seq<Item>, w: Weight) {
    forall i, j :: 0 <= i < j < |items| ==> w(items[i]) < w(items[j])
  }

  lemma {:induction false} RisingAtLeast(items: seq<Item>, w: Weight, i: nat)
    requires Rising(items, w) && i < |items|
    ensures w(items[i]) >= i
  {
    if i > 0 {
      RisingAtLeast(items, w, i - 1);
      assert w(items[i - 1]) < w(items[i]);
    }
  }

  lemma {:induction false} WeighConcat(a: seq<Item>, b: seq<Item>, w: Weight)
    ensures Weigh(a + b, w) == Weigh(a, w) + Weigh(b, w)
    decreases |b|
  {
    if b == [] {
      assert a + b == a;
    } else {
      assert (a + b)[..|a + b| - 1] == a + b[..|b| - 1];
      WeighConcat(a, b[..|b| - 1], w);
    }
  }

  lemma WeighOne(x: Item, w: Weight)
    ensures Weigh([x], w) == w(x)
  {
    assert [x][..0] == [] && Weigh([], w) == 0;
  }

  lemma WeighNothing(w: Weight)
    ensures Weigh([], w) == 0
  {
  }

  lemma SpliceWeighs(items: seq<Item>, q: nat, w: Weight)
    requires q < |items|
    ensures Weigh(items, w) == Weigh(Splice(items, q), w) + w(items[q]) && |Splice(items, q)| == |items| - 1
  {
    hide Weigh;
    var left, one, right := items[..q], [items[q]], items[q + 1..];
    assert items == left + (one + right);
    WeighConcat(left, one + right, w);
    WeighConcat(one, right, w);
    WeighConcat(left, right, w);
    WeighOne(items[q], w);
  }

  lemma SpliceRises(items: seq<Item>, q: nat, w: Weight)
    requires q < |items| && Rising(items, w)
    ensures Rising(Splice(items, q), w)
  {
    var s := Splice(items, q);
    assert forall i :: 0 <= i < |s| ==> s[i] == items[if i < q then i else i + 1];
  }

  /** The positions are ascending, and each holds an item that weighs just as much. */
  ghost predicate InPlace(items: seq<Item>, marks: seq<nat>, w: Weight) {
    Ascending(marks) && forall k :: 0 <= k < |marks| ==> marks[k] < |items| && w(items[marks[k]]) == marks[k]
  }

  /** Every removed item weighs at least its position; if none weighs more, the positions were ascending. */
  lemma {:induction false} SpliceOutWeighs(items: seq<Item>, marks: seq<nat>, w: Weight)
    requires Rising(items, w)
    ensures var out := SpliceOut(items, marks);
      && |out| + |marks| >= |items|
      && (|out| + |marks| == |items| ==> Weigh(out, w) + Sum(marks) <= Weigh(items, w))
      && (|out| + |marks| == |items| && Weigh(out, w) + Sum(marks) == Weigh(items, w) ==> InPlace(items, marks, w))
    decreases |marks|
  {
    if marks != [] {
      var front, q, out := marks[..|marks| - 1], marks[|marks| - 1], SpliceOut(items, marks);
      assert marks == front + [q] && out == SpliceOut(Splice(items, q), front) && Sum(marks) == Sum(front) + q;
      hide SpliceOut, Sum, Weigh, Rising, InPlace;
      if q < |items| {
        SpliceWeighs(items, q, w);
        SpliceRises(items, q, w);
        RisingAtLeast(items, w, q);
        hide Splice;
        SpliceOutWeighs(Splice(items, q), front, w);
        if |out| + |marks| == |items| && Weigh(out, w) + Sum(marks) == Weigh(items, w) {
          AddLast(items, front, q, w);
        }
      } else {
        SpliceOutWeighs(items, front, w);
      }
    }
  }

  lemma AddLast(items: seq<Item>, front: seq<nat>, q: nat, w: Weight)
    requires Rising(items, w) && q < |items| && w(items[q]) == q && InPlace(Splice(items, q), front, w)
    ensures InPlace(items, front + [q], w)
  {
    forall k | 0 <= k < |front| ensures front[k] < q && w(items[front[k]]) == front[k] {
      var m := front[k];
      if m >= q {
        assert Splice(items, q)[m] == items[m + 1];
        RisingAtLeast(items, w, m + 1);
      } else {
        assert Splice(items, q)[m] == items[m];
      }
    }
  }

  predicate DistinctEvents(items: seq<Item>) {
    forall i, j :: 0 <= i < j < |items| ==> items[i].event != items[j].event
  }

  predicate Distinct<T(==)>(xs: seq<T>) {
    forall i, j :: 0 <= i < j < |xs| ==> xs[i] != xs[j]
  }

  function Position(items: seq<Item>, x: Item): nat {
    if items == [] then 0 else if items[0] == x then 0 else 1 + Position(items[1..], x)
  }

  lemma {:induction false} PositionIs(items: seq<Item>, i: nat)
    requires Distinct(items) && i < |items|
    ensures Position(items, items[i]) == i
  {
    if i > 0 {
      assert items[0] != items[i];
      PositionIs(items[1..], i - 1);
    }
  }

  lemma WithoutStep(items: seq<Item>, gone: set<nat>, i: nat, w: Weight)
    requires i < |items|
    ensures Without(items, gone, i) == (if i in gone then [] else [items[i]]) + Without(items, gone, i + 1)
    ensures |Without(items, gone, i)| == (if i in gone then 0 else 1) + |Without(items, gone, i + 1)|
    ensures Weigh(Without(items, gone, i), w) == (if i in gone then 0 else w(items[i])) + Weigh(Without(items, gone, i + 1), w)
  {
    hide Weigh;
    var first := if i in gone then [] else [items[i]];
    WeighConcat(first, Without(items, gone, i + 1), w);
    WeighOne(items[i], w);
    WeighNothing(w);
    hide Without;
  }

  lemma {:induction false} OneMoreGone(items: seq<Item>, gone: set<nat>, q: nat, i: nat, w: Weight)
    requires i <= q < |items| && q !in gone
    ensures |Without(items, gone, i)| == |Without(items, gone + {q}, i)| + 1
    ensures Weigh(Without(items, gone, i), w) == Weigh(Without(items, gone + {q}, i), w) + w(items[q])
    decreases |items| - i
  {
    hide Without, Weigh;
    var more := gone + {q};
    WithoutStep(items, gone, i, w);
    WithoutStep(items, more, i, w);
    if i < q {
      OneMoreGone(items, gone, q, i + 1, w);
    } else {
      SameBeyond(items, gone, more, i + 1);
    }
  }

  lemma {:induction false} SameBeyond(items: seq<Item>, gone: set<nat>, more: set<nat>, i: nat)
    requires i <= |items| && forall j :: i <= j < |items| ==> (j in gone <==> j in more)
    ensures Without(items, gone, i) == Without(items, more, i)
    decreases |items| - i
  {
    if i < |items| {
      SameBeyond(items, gone, more, i + 1);
      var rest := Without(items, gone, i + 1);
      assert (i in gone) == (i in more);
    }
  }

  lemma {:induction false} MarkedWeigh(items: seq<Item>, marks: seq<nat>, w: Weight)
    requires Distinct(marks) && InRange(marks, |items|) && forall i :: 0 <= i < |items| ==> w(items[i]) == i
    ensures |Without(items, AsSet(marks), 0)| + |marks| == |items|
    ensures Weigh(Without(items, AsSet(marks), 0), w) + Sum(marks) == Weigh(items, w)
  {
    if marks == [] {
      NothingGone(items, AsSet(marks), 0, |items|);
      assert items[0..|items|] + Without(items, AsSet(marks), |items|) == items;
    } else {
      var front, q := marks[..|marks| - 1], marks[|marks| - 1];
      MarkedWeigh(items, front, w);
      assert AsSet(marks) == AsSet(front) + {q} by {
        assert forall k :: 0 <= k < |front| ==> marks[k] == front[k];
      }
      assert q !in AsSet(front);
      OneMoreGone(items, AsSet(front), q, 0, w);
      hide Without, Weigh, AsSet;
    }
  }

  /** Of distinct items, distinct positions are removed as they should be exactly when they are ascending. */
  lemma RemovesMarkedIffAscending(items: seq<Item>, marks: seq<nat>)
    requires Distinct(items) && Distinct(marks) && InRange(marks, |items|)
    ensures SpliceOut(items, marks) == Without(items, AsSet(marks), 0) <==> Ascending(marks)
  {
    if Ascending(marks) {
      AscendingRemovesMarked(items, marks);
    } else {
      var w: Weight := x => Position(items, x);
      forall i | 0 <= i < |items| ensures w(items[i]) == i { PositionIs(items, i); }
      hide Position, Without, SpliceOut, Weigh, AsSet;
      SpliceOutWeighs(items, marks, w);
      MarkedWeigh(items, marks, w);
    }
  }

  // ---------------------------------------------------------------- what is left

  lemma {:induction false} WithoutHas(items: seq<Item>, gone: set<nat>, i: nat, k: nat)
    requires Distinct(items) && i <= k < |items|
    ensures items[k] in Without(items, gone, i) <==> k !in gone
    decreases |items| - i
  {
    var first, rest := if i in gone then [] else [items[i]], Without(items, gone, i + 1);
    InFirst(first, rest, items[k]);
    if i < k {
      assert items[i] != items[k];
      WithoutHas(items, gone, i + 1, k);
    } else {
      WithoutLacks(items, gone, i + 1, items[k]);
    }
  }

  lemma InFirst(a: seq<Item>, b: seq<Item>, x: Item)
    ensures x in a + b <==> x in a || x in b
  {
  }

  lemma {:induction false} WithoutLacks(items: seq<Item>, gone: set<nat>, i: nat, x: Item)
    requires i <= |items| && forall k :: i <= k < |items| ==> items[k] != x
    ensures x !in Without(items, gone, i)
    decreases |items| - i
  {
    if i < |items| {
      WithoutLacks(items, gone, i + 1, x);
      InFirst(if i in gone then [] else [items[i]], Without(items, gone, i + 1), x);
    }
  }
}

/** The delivery queue as a class. */
module EventQueues {
  import opened Options
  import opened QueueSteps
  import opened QueueEvictions

  const BATCH_SIZE := 10

  class EventQueue {
    const maxSize: nat
    const maxAttempts: nat
    var queue: seq<Item>

    constructor (maxSize: nat, maxAttempts: nat)
      ensures queue == [] && this.maxSize == maxSize && this.maxAttempts == maxAttempts
    {
      this.maxSize, this.maxAttempts := maxSize, maxAttempts;
      queue := [];
    }

    /** A full queue loses its oldest item. */
    method Enqueue(event: EventId) returns (flushNow: bool)
      modifies this
      ensures queue == Pushed(old(queue), event, maxSize)
      ensures flushNow <==> 10 * |queue| >= 8 * maxSize
      ensures |old(queue)| <= maxSize && maxSize > 0 ==> |queue| <= maxSize
    {
      if |queue| >= maxSize {
        queue := if queue == [] then [] else queue[1..];
      }
      queue := queue + [Item(event, 0)];
      flushNow := 10 * |queue| >= 8 * maxSize;
    }

    /** Delivers one batch in order: failed items get an attempt, the positions of the others are collected. */
    method SettleBatch(results: nat -> seq<bool>, from: nat, to: nat, ghost whole: seq<Item>) returns (leaving: seq<nat>)
      requires from <= to <= |queue| && |whole| == |queue| && forall j :: from <= j < to ==> queue[j] == whole[j]
      modifies this
      ensures Batched(whole, old(queue), queue, from, to, leaving, results, maxAttempts)
    {
      leaving := [];
      for i := from to to
        invariant |queue| == |whole| && Batched(whole, old(queue), queue, from, i, leaving, results, maxAttempts)
      {
        hide AllFailed;
        if AllFailed(results(i)) && queue[i].attempts < maxAttempts {
          queue := queue[i := queue[i].(attempts := queue[i].attempts + 1)];
        } else {
          leaving := leaving + [i];
        }
      }
    }

    /** Splices the positions out of the queue, last one first. */
    method RemoveMarked(marks: seq<nat>)
      modifies this
      ensures queue == SpliceOut(old(queue), marks)
    {
      assert marks[..|marks|] == marks;
      for k := |marks| downto 0
        invariant SpliceOut(queue, marks[..k]) == SpliceOut(old(queue), marks)
      {
        var q := marks[k];
        assert marks[..k + 1][..k] == marks[..k] && marks[..k + 1][k] == q;
        queue := Splice(queue, q);
      }
    }

    /**
     * Flushes in batches, with deliveries settling in order; events may arrive after each batch
     * and evict others. The marks are for the handled items that leave, and their positions are
     * spliced out of the queue as it is in the end. If nothing is evicted, every item queued at
     * the start is handled and the result is the survivors of the queue and the arrivals.
     */
    method Flush(results: nat -> seq<bool>, arrivals: nat -> seq<EventId>)
      returns (batches: nat, ghost taken: map<nat, nat>, ghost marks: seq<Mark>, ghost items: seq<Item>)
      modifies this
      ensures var before, events := old(queue), Arrived(arrivals, batches);
        && Batches(before, events, maxSize, taken, |items| + BATCH_SIZE)
        && Leaving(before, events, maxSize, taken, |items| + BATCH_SIZE, marks, results, maxAttempts)
        && Collected(before, events, maxSize, marks) && SameEvents(items, Later(before, events, |events|, maxSize))
        && queue == SpliceOut(items, Positions(marks))
      ensures var before, events := old(queue), Arrived(arrivals, batches);
        |before| + |events| <= maxSize ==>
          && (forall i :: 0 <= i < |before| ==> i in taken)
          && queue == Survivors(before + NewItems(events), taken.Keys, results, maxAttempts, 0)
    {
      hide Settle, Without, Survivors, AllFailed, SpliceOut, AsSet, Later, Arrived, NewItems, Progress, Batched;
      hide Batches, Leaving, Current, ProgressIfRoom, Positions, Collected, MarksOf, TakenAt, SameEvents;
      ghost var before, events := queue, [];
      var positions: seq<nat>, cursor := [], 0;
      batches, taken, marks := 0, map[], [];
      NothingYet(arrivals, before, maxSize, results, maxAttempts);
      while cursor < |queue|
        invariant events == Arrived(arrivals, batches) && positions == Positions(marks)
        invariant Batches(before, events, maxSize, taken, cursor)
        invariant Leaving(before, events, maxSize, taken, cursor, marks, results, maxAttempts)
        invariant Current(queue, Later(before, events, |events|, maxSize), cursor)
        invariant |queue| == |Later(before, events, |events|, maxSize)| && |before| <= |queue| <= Max(|before|, maxSize + 1)
        invariant forall i :: 0 <= i < |before| && i < cursor ==> i in taken
        invariant cursor < |queue| + BATCH_SIZE
        invariant ProgressIfRoom(before, events, maxSize, queue, taken, positions, cursor, results, maxAttempts)
        decreases Max(|before|, maxSize + 1) + BATCH_SIZE - cursor
      {
        var end := if cursor + BATCH_SIZE < |queue| then cursor + BATCH_SIZE else |queue|;
        ghost var was, whole := queue, Later(before, events, |events|, maxSize);
        FromCursorOn(queue, whole, cursor);
        var leaving := SettleBatch(results, cursor, end, whole);
        BatchLeaves(before, events, maxSize, taken, marks, leaving, cursor, end, cursor + BATCH_SIZE, was, queue, results, maxAttempts);
        BatchKeepsEvents(whole, was, queue, cursor, end, cursor + BATCH_SIZE, leaving, results, maxAttempts);
        BatchProgressesIfRoom(before, events, maxSize, was, queue, taken, positions, leaving, cursor, end, cursor + BATCH_SIZE,
                              results, maxAttempts);
        PositionsOfBoth(marks, MarksOf(leaving, |events|));
        taken, marks := taken + TakenAt(cursor, end, |events|), marks + MarksOf(leaving, |events|);
        positions, cursor := positions + leaving, cursor + BATCH_SIZE;
        var more := arrivals(batches);
        ArrivalsKeepCurrent(queue, whole, cursor, more, |more|, maxSize);
        ArrivalsKeepBatches(before, events, more, maxSize, taken, cursor, marks, results, maxAttempts);
        ArrivalsProgressIfRoom(before, events, more, maxSize, queue, taken, positions, cursor, results, maxAttempts);
        ArriveMore(arrivals, batches, before, maxSize);
        queue, events, batches := Later(queue, more, |more|, maxSize), events + more, batches + 1;
        FromCursorOn(queue, Later(before, events, |events|, maxSize), cursor);
      }
      items := queue;
      LaterCursor(before, events, maxSize, taken, cursor, |items| + BATCH_SIZE, marks, results, maxAttempts);
      LeavingAreCollected(before, events, maxSize, taken, cursor, marks, results, maxAttempts);
      SameEventsNow(items, Later(before, events, |events|, maxSize), cursor);
      RemoveMarked(positions);
      if |before| + |events| <= maxSize {
        SurvivorsIfRoom(before, events, maxSize, items, taken, positions, cursor, results, maxAttempts);
      }
    }

    /** Restored items go behind the queued ones unless their event is queued; an overflow drops from the front. */
    method MergeRestoredQueue(restored: seq<Item>)
      modifies this
      ensures restored == [] ==> queue == old(queue)
      ensures var all := old(queue) + Without(restored, QueuedAlready(old(queue), restored), 0);
        restored != [] ==> queue == if |all| > maxSize then all[|all| - maxSize..] else all
    {
      if restored == [] {
        return;
      }
      var existing := set i | 0 <= i < |queue| :: queue[i].event;
      for n := 0 to |restored|
        invariant queue == old(queue) + NotQueued(old(queue), restored, n)
      {
        if restored[n].event in existing {
          continue;
        }
        queue := queue + [restored[n]];
      }
      NotQueuedIs(old(queue), restored, |restored|);
      assert restored[..|restored|] == restored;
      if |queue| > maxSize {
        queue := queue[|queue| - maxSize..];
      }
    }
  }

  predicate IsQueued(queue: seq<Item>, event: EventId) {
    exists i :: 0 <= i < |queue| && queue[i].event == event
  }

  /** Of the first n items those whose event is not queued. */
  function NotQueued(queue: seq<Item>, items: seq<Item>, n: nat): seq<Item>
    requires n <= |items|
  {
    if n == 0 then []
    else NotQueued(queue, items, n - 1) + if IsQueued(queue, items[n - 1].event) then [] else [items[n - 1]]
  }

  /** The positions of the items whose event stands in the queue. */
  function QueuedAlready(queue: seq<Item>, items: seq<Item>): set<nat> {
    set i, j | 0 <= i < |items| && 0 <= j < |queue| && queue[j].event == items[i].event :: i
  }

  lemma WithoutFirst(items: seq<Item>, gone: set<nat>, i: nat)
    requires i < |items|
    ensures Without(items, gone, i) == (if i in gone then [] else [items[i]]) + Without(items, gone, i + 1)
  {
  }

  lemma {:induction false} WithoutOneMore(items: seq<Item>, x: Item, gone: set<nat>, more: set<nat>, i: nat)
    requires i <= |items| && forall k :: 0 <= k < |items| ==> (k in gone <==> k in more)
    ensures Without(items + [x], more, i) == Without(items, gone, i) + if |items| in more then [] else [x]
    decreases |items| - i
  {
    var longer, last := items + [x], if |items| in more then [] else [x];
    WithoutFirst(longer, more, i);
    if i < |items| {
      WithoutFirst(items, gone, i);
      WithoutOneMore(items, x, gone, more, i + 1);
      Regroup(if i in gone then [] else [items[i]], Without(items, gone, i + 1), last);
      assert longer[i] == items[i];
    } else {
      assert Without(longer, more, |longer|) == [] && Without(items, gone, |items|) == [];
      assert longer[i] == x && last + [] == last && [] + last == last;
    }
    hide Without;
  }

  lemma {:induction false} NotQueuedIs(queue: seq<Item>, items: seq<Item>, n: nat)
    requires n <= |items|
    ensures NotQueued(queue, items, n) == Without(items[..n], QueuedAlready(queue, items[..n]), 0)
  {
    if n > 0 {
      NotQueuedIs(queue, items, n - 1);
      var front := items[..n - 1];
      assert items[..n] == front + [items[n - 1]];
      WithoutOneMore(front, items[n - 1], QueuedAlready(queue, front), QueuedAlready(queue, items[..n]), 0);
    }
  }
}
