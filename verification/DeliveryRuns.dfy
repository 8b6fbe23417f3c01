/**
 * The delivery queue over many flushes: how long an event stays queued, and how many requests
 * it causes. Each flush takes the queue to the survivors of the queue and its arrivals.
 */
module DeliveryRuns {
  import opened Options
  import opened Webhook
  import opened QueueSteps

  /** The retry settings, and for each webhook whether its address is valid. */
  datatype Setup = Setup(retry: RetryConfig, webhooks: seq<bool>)

  /**
   * One flush: the items that arrive from its start until the next one starts, the positions it
   * handles, and how each webhook answers the requests for the item at a position.
   */
  datatype Round = Round(more: seq<Item>, handled: set<nat>, answers: (nat, nat) -> (nat -> Response))

  function DeliveryOf(s: Setup, r: Round, i: nat, webhook: nat): Delivery
    requires webhook < |s.webhooks|
  {
    Deliver(s.retry, s.webhooks[webhook], r.answers(i, webhook))
  }

  function ResultsOf(s: Setup, r: Round): nat -> seq<bool> {
    (i: nat) => seq(|s.webhooks|, webhook requires 0 <= webhook < |s.webhooks| => DeliveryOf(s, r, i, webhook).success)
  }

  /** Every flush handles at least what was queued when it started. */
  ghost predicate IsRun(queues: seq<seq<Item>>, rounds: seq<Round>, s: Setup) {
    |queues| == |rounds| + 1 && forall n :: 0 <= n < |rounds| ==> FlushesTo(queues[n], rounds[n], s, queues[n + 1])
  }

  ghost predicate FlushesTo(queue: seq<Item>, r: Round, s: Setup, after: seq<Item>) {
    && (forall i :: 0 <= i < |queue| ==> i in r.handled)
    && DistinctEvents(queue + r.more)
    && after == Survivors(queue + r.more, r.handled, ResultsOf(s, r), s.retry.maxAttempts, 0)
  }

  /** The item of the event, if it is queued. */
  function ItemOf(items: seq<Item>, e: EventId): Option<Item> {
    if items == [] then None else if items[0].event == e then Some(items[0]) else ItemOf(items[1..], e)
  }

  /** Its position, or the length of the queue. */
  function PositionOf(items: seq<Item>, e: EventId): nat {
    if items == [] || items[0].event == e then 0 else 1 + PositionOf(items[1..], e)
  }

  lemma {:induction false} ItemAtPosition(items: seq<Item>, e: EventId)
    ensures var p := PositionOf(items, e);
      p <= |items| && ItemOf(items, e) == (if p < |items| then Some(items[p]) else None)
      && (p < |items| ==> items[p].event == e) && forall i :: 0 <= i < p ==> items[i].event != e
  {
    if items != [] && items[0].event != e {
      ItemAtPosition(items[1..], e);
    }
  }

  lemma {:induction false} ItemOfConcat(a: seq<Item>, b: seq<Item>, e: EventId)
    ensures ItemOf(a + b, e) == ItemOf(a, e).OrElse(ItemOf(b, e))
    decreases |a|
  {
    if a == [] {
      assert a + b == b;
    } else {
      assert (a + b)[1..] == a[1..] + b;
      ItemOfConcat(a[1..], b, e);
    }
  }

  lemma {:induction false} NotLater(items: seq<Item>, handled: set<nat>, results: nat -> seq<bool>, max: nat, i: nat, e: EventId)
    requires i <= |items| && forall j :: i <= j < |items| ==> items[j].event != e
    ensures ItemOf(Survivors(items, handled, results, max, i), e) == None
    decreases |items| - i
  {
    if i < |items| {
      NotLater(items, handled, results, max, i + 1, e);
      SurvivorOf(items, handled, results, max, i, e);
    }
  }

  /** The survivors from position i on, seen from one event. */
  lemma SurvivorOf(items: seq<Item>, handled: set<nat>, results: nat -> seq<bool>, max: nat, i: nat, e: EventId)
    requires i < |items|
    ensures var fate := if i in handled then Settle(items[i], results(i), max) else Some(items[i]);
      ItemOf(Survivors(items, handled, results, max, i), e)
      == if fate.Some? && items[i].event == e then fate else ItemOf(Survivors(items, handled, results, max, i + 1), e)
  {
    var fate := if i in handled then Settle(items[i], results(i), max) else Some(items[i]);
    var rest := Survivors(items, handled, results, max, i + 1);
    ItemOfConcat(ToSeq(fate), rest, e);
    OneItem(fate, e);
    hide Survivors, ItemOf, AllFailed;
  }

  lemma OneItem(fate: Option<Item>, e: EventId)
    ensures ItemOf(ToSeq(fate), e) == if fate.Some? && fate.value.event == e then fate else None
  {
    if fate.Some? {
      assert [fate.value][1..] == [];
    }
  }

  /** A flush settles the item at the event's position and nothing else of the event. */
  lemma {:induction false} FateOfEvent(items: seq<Item>, handled: set<nat>, results: nat -> seq<bool>, max: nat, i: nat, p: nat, e: EventId)
    requires i <= p < |items| && DistinctEvents(items) && items[p].event == e
    ensures ItemOf(Survivors(items, handled, results, max, i), e)
         == if p in handled then Settle(items[p], results(p), max) else Some(items[p])
    decreases |items| - i
  {
    SurvivorOf(items, handled, results, max, i, e);
    hide Survivors, Settle;
    if i < p {
      FateOfEvent(items, handled, results, max, i + 1, p, e);
    } else {
      NotLater(items, handled, results, max, i + 1, e);
    }
  }

  // ---------------------------------------------------------------- one event

  /** The event is queued when flush n starts, and all webhooks fail it. */
  ghost predicate FailsIn(queues: seq<seq<Item>>, rounds: seq<Round>, s: Setup, n: nat, e: EventId)
    requires n < |rounds| && n < |queues|
  {
    && ItemOf(queues[n], e).Some? && s.webhooks != []
    && forall webhook: nat :: webhook < |s.webhooks| ==> !DeliveryOf(s, rounds[n], PositionOf(queues[n], e), webhook).success
  }

  lemma FailsIffAllFail(queues: seq<seq<Item>>, rounds: seq<Round>, s: Setup, n: nat, e: EventId)
    requires n < |rounds| && n < |queues|
    ensures FailsIn(queues, rounds, s, n, e) <==>
      ItemOf(queues[n], e).Some? && AllFailed(ResultsOf(s, rounds[n])(PositionOf(queues[n], e)))
  {
    var i := PositionOf(queues[n], e);
    var results := ResultsOf(s, rounds[n])(i);
    assert |results| == |s.webhooks|;
    assert forall webhook: nat :: webhook < |s.webhooks| ==> results[webhook] == DeliveryOf(s, rounds[n], i, webhook).success;
    hide ItemOf, Deliver, PositionOf;
  }

  lemma FlushStep(queue: seq<Item>, r: Round, s: Setup, after: seq<Item>, e: EventId)
    requires FlushesTo(queue, r, s, after) && ItemOf(r.more, e) == None
    ensures ItemOf(after, e)
         == if ItemOf(queue, e).None? then None
            else Settle(ItemOf(queue, e).value, ResultsOf(s, r)(PositionOf(queue, e)), s.retry.maxAttempts)
  {
    var whole, p := queue + r.more, PositionOf(queue, e);
    ItemAtPosition(queue, e);
    ItemAtPosition(r.more, e);
    if p < |queue| {
      assert whole[p] == queue[p];
      FateOfEvent(whole, r.handled, ResultsOf(s, r), s.retry.maxAttempts, 0, p, e);
    } else {
      assert forall j :: 0 <= j < |whole| ==> whole[j].event != e by {
        ItemAtPosition(r.more, e);
        assert forall j :: 0 <= j < |whole| ==> whole[j] == if j < |queue| then queue[j] else r.more[j - |queue|];
      }
      NotLater(whole, r.handled, ResultsOf(s, r), s.retry.maxAttempts, 0, e);
    }
  }

  /**
   * A new event is still queued after n flushes exactly when all of them failed it on all
   * webhooks and it has attempts left; so it is gone after maxAttempts + 1 flushes.
   */
  lemma {:induction false} StaysQueuedIffAllFail(queues: seq<seq<Item>>, rounds: seq<Round>, s: Setup, n: nat, e: EventId)
    requires IsRun(queues, rounds, s) && n <= |rounds| && ItemOf(queues[0], e) == Some(Item(e, 0))
    requires forall k :: 0 <= k < n ==> ItemOf(rounds[k].more, e) == None
    ensures ItemOf(queues[n], e).Some? <==> n <= s.retry.maxAttempts && forall k :: 0 <= k < n ==> FailsIn(queues, rounds, s, k, e)
    ensures ItemOf(queues[n], e).Some? ==> ItemOf(queues[n], e).value == Item(e, n)
  {
    hide ItemOf, ResultsOf, FlushesTo, AllFailed;
    if n > 0 {
      StaysQueuedIffAllFail(queues, rounds, s, n - 1, e);
      FailsIffAllFail(queues, rounds, s, n - 1, e);
      hide FailsIn;
      assert FlushesTo(queues[n - 1], rounds[n - 1], s, queues[n]);
      FlushStep(queues[n - 1], rounds[n - 1], s, queues[n], e);
      assert (forall k :: 0 <= k < n ==> FailsIn(queues, rounds, s, k, e))
        <==> (forall k :: 0 <= k < n - 1 ==> FailsIn(queues, rounds, s, k, e)) && FailsIn(queues, rounds, s, n - 1, e);
    }
  }

  /** The requests for the event to one webhook in the first n flushes. */
  function Requests(queues: seq<seq<Item>>, rounds: seq<Round>, s: Setup, n: nat, e: EventId, webhook: nat): nat
    requires n <= |rounds| && n <= |queues| && webhook < |s.webhooks|
  {
    if n == 0 then 0
    else
      var last := if ItemOf(queues[n - 1], e).None? then 0
                  else DeliveryOf(s, rounds[n - 1], PositionOf(queues[n - 1], e), webhook).attempts;
      Requests(queues, rounds, s, n - 1, e, webhook) + last
  }

  /** At most max requests in each of the first n flushes, of which at most max + 1 find the event queued. */
  function Bound(max: nat, n: nat): nat {
    max * if n <= max then n else max + 1
  }

  lemma BoundGrows(max: nat, n: nat, r: nat, last: nat)
    requires n > 0 && r <= Bound(max, n - 1) && last <= max && (n > max + 1 ==> last == 0)
    ensures r + last <= Bound(max, n)
  {
    assert n <= max + 1 ==> max * n == max * (n - 1) + max;
  }

  lemma BoundIsBounded(max: nat, n: nat)
    ensures Bound(max, n) <= max * (max + 1)
  {
  }

  lemma {:induction false} RequestsStayBelow(queues: seq<seq<Item>>, rounds: seq<Round>, s: Setup, n: nat, e: EventId, webhook: nat)
    requires IsRun(queues, rounds, s) && n <= |rounds| && webhook < |s.webhooks| && ItemOf(queues[0], e) == Some(Item(e, 0))
    requires forall k :: 0 <= k < n ==> ItemOf(rounds[k].more, e) == None
    ensures Requests(queues, rounds, s, n, e, webhook) <= Bound(s.retry.maxAttempts, n)
  {
    assert |queues| == |rounds| + 1;
    hide ItemOf, PositionOf, IsRun, Bound, Deliver, FailsIn;
    if n > 0 {
      RequestsStayBelow(queues, rounds, s, n - 1, e, webhook);
      StaysQueuedIffAllFail(queues, rounds, s, n - 1, e);
      var last := if ItemOf(queues[n - 1], e).None? then 0
                  else DeliveryOf(s, rounds[n - 1], PositionOf(queues[n - 1], e), webhook).attempts;
      BoundGrows(s.retry.maxAttempts, n, Requests(queues, rounds, s, n - 1, e, webhook), last);
    }
  }

  /** Over any number of flushes an event causes at most maxAttempts * (maxAttempts + 1) requests to a webhook. */
  lemma RequestsAreBounded(queues: seq<seq<Item>>, rounds: seq<Round>, s: Setup, n: nat, e: EventId, webhook: nat)
    requires IsRun(queues, rounds, s) && n <= |rounds| && webhook < |s.webhooks| && ItemOf(queues[0], e) == Some(Item(e, 0))
    requires forall k :: 0 <= k < n ==> ItemOf(rounds[k].more, e) == None
    ensures Requests(queues, rounds, s, n, e, webhook) <= s.retry.maxAttempts * (s.retry.maxAttempts + 1)
  {
    RequestsStayBelow(queues, rounds, s, n, e, webhook);
    BoundIsBounded(s.retry.maxAttempts, n);
    hide Requests, Bound, IsRun, ItemOf;
  }
}
