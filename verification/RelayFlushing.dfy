/**
 * What a flush of the relay queue does with the events in it: which one it handles or sends next,
 * in which order a whole flush goes, what a failure leaves, and what an overflow meanwhile spoils.
 */
module RelayFlushing {
  import opened TransportLock
  import opened ManagerSteps

  // ---------------------------------------------------------------- one step

  /** The flush is at its next await: handling the first event, taken from the queue, or sending it, left there. */
  ghost predicate AtNext(after: Manager, waiting: seq<Event>) {
    if waiting == [] || after.IsStopped() then after.pending == waiting && after.loops == [] && !after.flushing
    else if after.role == Owner then after.pending == waiting[1..] && after.loops == [Handling(waiting[0])] && after.flushing
    else after.pending == waiting && after.loops == [Sending(waiting[0])] && after.flushing
  }

  /** A flush starts with the first event that waits; while one is running, another does not start. */
  lemma FlushStarts(m: Manager)
    requires Awake(m) && m.retryTimer
    ensures m.flushing ==> RetryFires(m).pending == m.pending && RetryFires(m).loops == m.loops && RetryFires(m).flushing
    ensures !m.flushing ==> AtNext(RetryFires(m), m.pending)
    ensures RetryFires(m).role == m.role && RetryFires(m).phase == m.phase
  {
  }

  lemma LoopHeadIsNext(m: Manager)
    requires m.loops == [] && m.flushing
    ensures AtNext(LoopHead(m), m.pending) && LoopHead(m).role == m.role && LoopHead(m).phase == m.phase
  {
  }

  lemma LoneLoop(m: Manager)
    requires |m.loops| == 1
    ensures WithoutLoop(m, 0) == m.(loops := [])
  {
  }

  /** After an acknowledgement the first event leaves the queue; after handling one nothing more does. */
  lemma FlushGoesOn(m: Manager)
    requires Awake(m) && |m.loops| == 1
    ensures m.loops[0].Sending? ==> AtNext(SendSucceeded(m, 0), if m.pending == [] then [] else m.pending[1..])
    ensures m.loops[0].Handling? ==> AtNext(HandlerFinished(m, 0), m.pending)
    ensures m.loops[0].Sending? ==> SendSucceeded(m, 0).role == m.role && SendSucceeded(m, 0).phase == m.phase
    ensures m.loops[0].Handling? ==> HandlerFinished(m, 0).role == m.role && HandlerFinished(m, 0).phase == m.phase
  {
    LoneLoop(m);
    hide LoopHead, WithoutLoop, AtNext;
    var alone := m.(loops := []);
    LoopHeadIsNext(alone);
    LoopHeadIsNext(alone.(pending := if m.pending == [] then [] else m.pending[1..]));
  }

  /** After a failure the flush is over; what waits stays, the event being sent included, and is retried. */
  lemma FlushFails(m: Manager)
    requires Awake(m) && |m.loops| == 1
    ensures m.loops[0].Sending? ==> Rests(SendFailed(m, 0), m) && SendFailed(m, 0).retryTimer == !m.IsStopped()
    ensures m.loops[0].Handling? ==> Rests(HandlerFailed(m, 0), m)
    ensures m.loops[0].Handling? && m.pending != [] ==> HandlerFailed(m, 0).retryTimer == !m.IsStopped()
  {
  }

  ghost predicate Rests(after: Manager, m: Manager) {
    after.pending == m.pending && after.loops == [] && !after.flushing && after.role == m.role && after.phase == m.phase
  }

  /** An event that is not handled by the owner itself is queued behind the others, a full queue losing its oldest. */
  lemma DispatchQueues(m: Manager, e: Event)
    ensures m.role == Owner ==> Dispatch(m, e) == m
    ensures m.role == Follower && (|m.pending| < m.maxPending || m.pending == []) ==> Dispatch(m, e).pending == m.pending + [e]
    ensures m.role == Follower && |m.pending| >= m.maxPending && m.pending != [] ==> Dispatch(m, e).pending == m.pending[1..] + [e]
    ensures m.role == Follower ==> (Dispatch(m, e).retryTimer <==> m.retryTimer || !m.IsStopped())
    ensures var after := Dispatch(m, e);
      after == m.(pending := after.pending, retryTimer := after.retryTimer)
  {
  }

  // ---------------------------------------------------------------- a whole flush

  /** The manager after the flush has started and n steps of it have succeeded. */
  function Flushed(m: Manager, n: nat): Manager
    requires m.retryTimer
  {
    if n == 0 then RetryFires(m)
    else
      var before := Flushed(m, n - 1);
      if |before.loops| != 1 then before
      else if before.loops[0].Sending? then SendSucceeded(before, 0) else HandlerFinished(before, 0)
  }

  lemma FlushedStep(m: Manager, n: nat)
    requires m.retryTimer && Awake(Flushed(m, n)) && |Flushed(m, n).loops| == 1
    ensures Awake(Flushed(m, n + 1))
    ensures var before := Flushed(m, n);
      AtNext(Flushed(m, n + 1), if before.loops[0].Handling? then before.pending else if before.pending == [] then [] else before.pending[1..])
      && Flushed(m, n + 1).role == before.role && Flushed(m, n + 1).phase == before.phase
  {
    FlushGoesOn(Flushed(m, n));
    LoopStepKeepsAwake(Flushed(m, n), 0);
    hide SendSucceeded, HandlerFinished, Awake, AtNext;
  }

  /** An undisturbed flush sends, or as the owner handles, each waiting event once, in order, until none is left. */
  lemma {:induction false} FlushGoesThroughAll(m: Manager, n: nat)
    requires Awake(m) && m.retryTimer && !m.flushing && !m.IsStopped() && n <= |m.pending|
    ensures Awake(Flushed(m, n)) && AtNext(Flushed(m, n), m.pending[n..])
    ensures Flushed(m, n).role == m.role && Flushed(m, n).phase == m.phase
  {
    FlushStarts(m);
    if n > 0 {
      FlushGoesThroughAll(m, n - 1);
      FlushedStep(m, n - 1);
      assert m.pending[n - 1..][1..] == m.pending[n..];
      hide Flushed, Awake, RetryFires;
    } else {
      RetryKeepsAwake(m);
      assert m.pending[0..] == m.pending;
    }
  }

  lemma RetryKeepsAwake(m: Manager)
    requires Awake(m) && m.retryTimer
    ensures Awake(RetryFires(m))
  {
    StepKeepsAwake(m, Absent, Retries);
  }

  // ---------------------------------------------------------------- an overflow while an event is being sent

  function Dispatched(m: Manager, events: seq<Event>, n: nat): Manager
    requires n <= |events|
  {
    if n == 0 then m else Dispatch(Dispatched(m, events, n - 1), events[n - 1])
  }

  /** How many events the first n arrivals have pushed out. */
  function Overflow(m: Manager, n: nat): nat {
    if |m.pending| + n <= m.maxPending then 0 else |m.pending| + n - m.maxPending
  }

  lemma {:induction false} DispatchedQueue(m: Manager, events: seq<Event>, n: nat)
    requires n <= |events| && m.role == Follower && m.maxPending >= 1 && |m.pending| <= m.maxPending
    ensures var after, all := Dispatched(m, events, n), m.pending + events;
      && after.pending == all[Overflow(m, n)..|m.pending| + n]
      && after.role == m.role && after.loops == m.loops && after.maxPending == m.maxPending && after.phase == m.phase
  {
    hide Dispatch, Dispatched;
    var all := m.pending + events;
    NextDispatched(m, events, n);
    if n > 0 {
      DispatchedQueue(m, events, n - 1);
      var before, low, high := Dispatched(m, events, n - 1), Overflow(m, n - 1), |m.pending| + n - 1;
      assert |before.pending| == high - low && all[high] == events[n - 1];
      DispatchSlice(before, all, low, high);
      assert Overflow(m, n) == if high - low < m.maxPending then low else low + 1;
    } else {
      assert all[0..|m.pending|] == m.pending;
    }
  }

  lemma NextDispatched(m: Manager, events: seq<Event>, n: nat)
    requires n <= |events|
    ensures Dispatched(m, events, n) == if n == 0 then m else Dispatch(Dispatched(m, events, n - 1), events[n - 1])
  {
    hide Dispatch;
  }

  lemma DispatchSlice(m: Manager, all: seq<Event>, low: nat, high: nat)
    requires low <= high < |all| && m.pending == all[low..high] && m.role == Follower && m.maxPending >= 1 && |m.pending| <= m.maxPending
    ensures var after := Dispatch(m, all[high]);
      && after.pending == (if |m.pending| < m.maxPending then all[low..high + 1] else all[low + 1..high + 1])
      && after.role == m.role && after.loops == m.loops && after.maxPending == m.maxPending && after.phase == m.phase
  {
    DispatchQueues(m, all[high]);
    SliceStep(all, low, high);
    hide Dispatch;
  }

  lemma SliceStep(all: seq<Event>, low: nat, high: nat)
    requires low <= high < |all|
    ensures all[low..high] + [all[high]] == all[low..high + 1]
    ensures low < high ==> all[low..high][1..] + [all[high]] == all[low + 1..high + 1]
  {
  }

  /**
   * When the acknowledgement of an event comes after others were dispatched, exactly it and the
   * events pushed out are gone, if and only if none was pushed out: otherwise the sent event is
   * among those, and one that was never sent goes in its place.
   */
  lemma AcknowledgementIsRightIff(m: Manager, events: seq<Event>)
    requires Awake(m) && m.role == Follower && !m.IsStopped() && m.pending != [] && m.loops == [Sending(m.pending[0])]
    ensures |Dispatched(m, events, |events|).loops| == 1 && Dispatched(m, events, |events|).loops[0].Sending?
    ensures var all, gone := m.pending + events, Overflow(m, |events|);
      var after := SendSucceeded(Dispatched(m, events, |events|), 0);
      && after.pending == all[gone + 1..]
      && (after.pending == all[if gone == 0 then 1 else gone..] <==> |m.pending| + |events| <= m.maxPending)
  {
    DispatchedQueue(m, events, |events|);
    var before, all, gone := Dispatched(m, events, |events|), m.pending + events, Overflow(m, |events|);
    assert before.pending == all[gone..] && |before.pending| >= 1;
    assert all[gone..][1..] == all[gone + 1..];
    hide Dispatched;
    SentDropsHead(before);
    assert |all[gone + 1..]| == |all| - gone - 1;
  }

  lemma SentDropsHead(m: Manager)
    requires |m.loops| == 1 && m.loops[0].Sending? && m.role == Follower && m.pending != []
    ensures SendSucceeded(m, 0).pending == m.pending[1..]
  {
  }
}
