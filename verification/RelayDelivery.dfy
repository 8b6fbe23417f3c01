/**
 * A follower relaying its events to a fixed owner over an unreliable connection. Copies of an
 * event can be lost, delayed past a timeout and overtaken by retransmissions; acknowledgements
 * can be lost. The follower side is the manager of ManagerSteps.dfy, the owner side the
 * duplicate suppression of Dedupe.dfy with semantic matching off.
 */
module RelayDelivery {
  import opened TransportLock
  import opened ManagerSteps
  import opened Options
  import Dedupe

  datatype Relay = Relay(
    m: Manager,
    dispatched: seq<Event>,         // what the follower was asked to send, in order
    acked: seq<Event>,              // what it has removed from its queue after an acknowledgement
    sends: seq<Event>,              // the event of every send attempt so far
    inFlight: set<nat>,             // attempts whose copy has not reached the owner
    answered: set<nat>,             // attempts that the owner has answered
    tables: Dedupe.Tables,
    clock: int,
    processed: seq<Event>,          // what the owner has run for this follower, in order
    processedAt: map<Event, int>,
    foreign: set<Event>)            // ids of events that reached the owner by other ways

  datatype Step =
    | Offers(e: Event)
    | Fires
    | Delivers(k: nat, now: int)
    | Loses(k: nat)
    | AckArrives
    | AttemptFails
    | OtherTraffic(e: Event, now: int)
    | Stops

  predicate Waiting(r: Relay) {
    r.m.loops != [] && r.m.loops[0].Sending?
  }

  predicate Possible(r: Relay, s: Step) {
    match s
    case Offers(e) => e !in r.dispatched && e !in r.foreign && |r.m.pending| < r.m.maxPending
    case Fires => r.m.retryTimer
    case Delivers(k, now) => k in r.inFlight && k < |r.sends| && now >= r.clock
    case Loses(k) => k in r.inFlight
    case AckArrives => Waiting(r) && r.sends != [] && |r.sends| - 1 in r.answered
    case AttemptFails => Waiting(r)
    case OtherTraffic(e, now) => e !in r.dispatched && now >= r.clock
    case Stops => r.m.phase.Running?
  }

  /** Retransmissions of one event reach the owner within the time to live of its first copy. */
  predicate InTime(r: Relay, s: Step, ttl: int)
    requires Possible(r, s)
  {
    s.Delivers? ==> forall e :: e == r.sends[s.k] && e in r.processedAt ==> s.now < r.processedAt[e] + ttl
  }

  /** A manager step; when it leaves the loop waiting for a send, that send has been launched. */
  function WithManager(r: Relay, m: Manager): Relay {
    if m.loops != [] && m.loops[0].Sending? then
      r.(m := m, sends := r.sends + [m.loops[0].event], inFlight := r.inFlight + {|r.sends|})
    else r.(m := m)
  }

  function Deliver(r: Relay, k: nat, now: int, ttl: int): Relay
    requires k < |r.sends|
  {
    var e, c := r.sends[k], Dedupe.Config(ttl, false);
    var a := Dedupe.Arrival(now, e, None);
    var seen := r.(clock := now, inFlight := r.inFlight - {k}, answered := r.answered + {k},
                   tables := Dedupe.Register(r.tables, a, c));
    if Dedupe.Accepts(r.tables, a, c) then seen.(processed := r.processed + [e], processedAt := r.processedAt[e := now])
    else seen
  }

  function Next(r: Relay, s: Step, ttl: int): Relay
    requires Possible(r, s)
  {
    match s
    case Offers(e) => r.(m := Dispatch(r.m, e), dispatched := r.dispatched + [e])
    case Fires => if r.m.flushing then r.(m := RetryFires(r.m)) else WithManager(r, RetryFires(r.m))
    case Delivers(k, now) => Deliver(r, k, now, ttl)
    case Loses(k) => r.(inFlight := r.inFlight - {k})
    case AckArrives => WithManager(r.(acked := r.acked + [r.m.loops[0].event]), SendSucceeded(r.m, 0))
    case AttemptFails => r.(m := SendFailed(r.m, 0))
    case OtherTraffic(e, now) =>
      r.(clock := now, foreign := r.foreign + {e},
         tables := Dedupe.Register(r.tables, Dedupe.Arrival(now, e, None), Dedupe.Config(ttl, false)))
    case Stops => r.(m := StopBegins(r.m))
  }

  // ---------------------------------------------------------------- the invariant

  ghost predicate Distinct(events: seq<Event>) {
    forall i, j :: 0 <= i < j < |events| ==> events[i] != events[j]
  }

  /** The follower's side: the queue is what is not acknowledged yet, and its head is what is being sent. */
  ghost predicate FollowerFits(r: Relay) {
    && Awake(r.m) && r.m.role.Follower? && r.m.mode.FollowerMode?
    && r.dispatched == r.acked + r.m.pending && Distinct(r.dispatched)
    && (forall e :: e in r.foreign ==> e !in r.dispatched)
    && (r.m.loops != [] ==> r.m.pending != [] && r.m.loops[0] == Sending(r.m.pending[0])
                            && r.sends != [] && r.sends[|r.sends| - 1] == r.m.pending[0])
    && (forall e :: e in r.sends ==> e in r.acked || (r.m.pending != [] && e == r.m.pending[0]))
  }

  /** The owner has run exactly the acknowledged events, or those and the head of the queue. */
  ghost predicate OwnerInStep(r: Relay) {
    r.processed == r.acked || (r.m.pending != [] && r.processed == r.acked + [r.m.pending[0]])
  }

  /** The owner's tables know what was run for as long as the time to live. */
  ghost predicate OwnerFits(r: Relay, ttl: int) {
    && (forall e :: e in r.processedAt <==> e in r.processed)
    && (forall k :: k in r.answered ==> k < |r.sends| && r.sends[k] in r.processed)
    && (forall e :: e in r.processed && r.clock < r.processedAt[e] + ttl ==>
          e in r.tables.ids && r.tables.ids[e] == r.processedAt[e] + ttl)
    && (forall e :: e in r.tables.ids ==> e in r.processed || e in r.foreign)
    && (forall e :: e in r.tables.ids && e in r.processed ==> r.tables.ids[e] == r.processedAt[e] + ttl)
  }

  ghost predicate Inv(r: Relay, ttl: int) {
    FollowerFits(r) && OwnerInStep(r) && OwnerFits(r, ttl)
  }

  // ---------------------------------------------------------------- every step keeps it

  lemma DispatchKeepsInv(r: Relay, e: Event, ttl: int)
    requires Inv(r, ttl) && Possible(r, Offers(e))
    ensures Inv(Next(r, Offers(e), ttl), ttl)
  {
    EnqueueKeepsAwake(r.m, e);
    assert Dispatch(r.m, e).pending == r.m.pending + [e];
  }

  /** Running the loop head of a follower launches the head of its queue, or nothing. */
  lemma LoopHeadSends(m: Manager)
    requires InLoop(m) && m.role.Follower?
    ensures var after := LoopHead(m);
      && after.pending == m.pending && after.role == m.role && after.mode == m.mode && after.maxPending == m.maxPending
      && (after.loops == [] || (m.pending != [] && after.loops == [Sending(m.pending[0])]))
  {
  }

  lemma RetrySends(m: Manager)
    requires Awake(m) && m.retryTimer && m.role.Follower?
    ensures var after := RetryFires(m);
      && Awake(after) && after.pending == m.pending && after.role == m.role && after.mode == m.mode
      && (if m.flushing then after.loops == m.loops
          else after.loops == [] || (m.pending != [] && after.loops == [Sending(m.pending[0])]))
  {
    RetryKeepsAwake(m);
    if !m.flushing && !m.IsStopped() {
      LoopHeadSends(m.(retryTimer := false, flushing := true));
    }
    hide LoopHead;
  }

  lemma RetryKeepsInv(r: Relay, ttl: int)
    requires Inv(r, ttl) && Possible(r, Fires)
    ensures Inv(Next(r, Fires, ttl), ttl)
  {
    RetrySends(r.m);
    hide RetryFires, Awake;
  }

  /** The acknowledged event is the head of the queue, which the owner has run. */
  lemma HeadWasRun(r: Relay, ttl: int)
    requires Inv(r, ttl) && Possible(r, AckArrives)
    ensures r.m.pending != [] && r.m.loops == [Sending(r.m.pending[0])]
    ensures r.processed == r.acked + [r.m.pending[0]] && r.dispatched == r.acked + [r.m.pending[0]] + r.m.pending[1..]
    ensures forall e :: e in r.sends ==> e in r.acked + [r.m.pending[0]]
  {
    var head := r.m.pending[0];
    assert head in r.processed;
    assert head !in r.acked by {
      assert r.dispatched[|r.acked|] == head;
      assert forall i :: 0 <= i < |r.acked| ==> r.dispatched[i] == r.acked[i];
    }
  }

  lemma AckMovesOn(m: Manager)
    requires Awake(m) && m.role.Follower? && m.pending != [] && m.loops == [Sending(m.pending[0])]
    ensures var after := SendSucceeded(m, 0);
      && Awake(after) && after.pending == m.pending[1..] && after.role == m.role && after.mode == m.mode
      && (after.loops == [] || (after.pending != [] && after.loops == [Sending(after.pending[0])]))
  {
    LoopStepKeepsAwake(m, 0);
    LoopEndsAlone(m, 0);
    LoopHeadSends(WithoutLoop(m, 0).(pending := m.pending[1..]));
    hide LoopHead, Awake;
  }

  lemma AckKeepsInv(r: Relay, ttl: int)
    requires Inv(r, ttl) && Possible(r, AckArrives)
    ensures Inv(Next(r, AckArrives, ttl), ttl)
  {
    HeadWasRun(r, ttl);
    AckMovesOn(r.m);
    hide SendSucceeded, Awake;
  }

  lemma FailureKeepsInv(r: Relay, ttl: int)
    requires Inv(r, ttl) && Possible(r, AttemptFails)
    ensures Inv(Next(r, AttemptFails, ttl), ttl)
  {
    LoopStepKeepsAwake(r.m, 0);
    LoopEndsAlone(r.m, 0);
    FailureKeepsQueue(r.m);
    hide SendFailed, Awake;
  }

  lemma FailureKeepsQueue(m: Manager)
    requires |m.loops| == 1 && m.loops[0].Sending?
    ensures var after := SendFailed(m, 0);
      after.pending == m.pending && after.loops == [] && after.role == m.role && after.mode == m.mode
  {
  }

  /** A first copy is accepted and a later one, in time, is not. */
  lemma DeliveryKeepsInv(r: Relay, k: nat, now: int, ttl: int)
    requires Inv(r, ttl) && Possible(r, Delivers(k, now)) && InTime(r, Delivers(k, now), ttl)
    ensures Inv(Next(r, Delivers(k, now), ttl), ttl)
  {
    var e := r.sends[k];
    DeliveryAccepted(r, k, now, ttl);
    assert e in r.sends;
    var next := Next(r, Delivers(k, now), ttl);
    DeliveryKeepsOwner(r, k, now, ttl);
    hide Dedupe.Register, Awake, OwnerFits;
    assert FollowerFits(next);
    assert OwnerInStep(next);
  }

  lemma DeliveryKeepsOwner(r: Relay, k: nat, now: int, ttl: int)
    requires Inv(r, ttl) && Possible(r, Delivers(k, now)) && InTime(r, Delivers(k, now), ttl)
    ensures OwnerFits(Next(r, Delivers(k, now), ttl), ttl)
  {
    var e, a, c := r.sends[k], Dedupe.Arrival(now, r.sends[k], None), Dedupe.Config(ttl, false);
    DeliveryAccepted(r, k, now, ttl);
    Dedupe.RegisterKeeps(r.tables, a, c);
    RegisterAddsOnly(r.tables, a, c);
    hide Dedupe.Register, Awake, FollowerFits, OwnerInStep;
  }

  lemma RegisterAddsOnly(t: Dedupe.Tables, a: Dedupe.Arrival, c: Dedupe.Config)
    ensures forall id :: id in Dedupe.Register(t, a, c).ids ==> id in t.ids || id == a.id
    ensures forall id :: id in Dedupe.Register(t, a, c).ids && (id != a.id || Dedupe.KnownId(t, a)) ==>
      id in t.ids && Dedupe.Register(t, a, c).ids[id] == t.ids[id]
  {
  }

  /** The owner runs a copy exactly when it has not run the event within the time to live. */
  lemma DeliveryAccepted(r: Relay, k: nat, now: int, ttl: int)
    requires Inv(r, ttl) && Possible(r, Delivers(k, now))
    ensures var e := r.sends[k];
      Dedupe.Accepts(r.tables, Dedupe.Arrival(now, e, None), Dedupe.Config(ttl, false))
      <==> (e in r.processedAt ==> now >= r.processedAt[e] + ttl)
  {
    var e := r.sends[k];
    assert e in r.sends && e in r.dispatched;
  }

  lemma TrafficKeepsInv(r: Relay, e: Event, now: int, ttl: int)
    requires Inv(r, ttl) && Possible(r, OtherTraffic(e, now))
    ensures Inv(Next(r, OtherTraffic(e, now), ttl), ttl)
  {
    var a, c := Dedupe.Arrival(now, e, None), Dedupe.Config(ttl, false);
    Dedupe.RegisterKeeps(r.tables, a, c);
    RegisterAddsOnly(r.tables, a, c);
    hide Dedupe.Register, Awake;
  }

  lemma NextKeepsInv(r: Relay, s: Step, ttl: int)
    requires Inv(r, ttl) && Possible(r, s) && InTime(r, s, ttl)
    ensures Inv(Next(r, s, ttl), ttl)
  {
    match s
    case Offers(e) => DispatchKeepsInv(r, e, ttl);
    case Fires => RetryKeepsInv(r, ttl);
    case Delivers(k, now) => DeliveryKeepsInv(r, k, now, ttl);
    case Loses(k) =>
    case AckArrives => AckKeepsInv(r, ttl);
    case AttemptFails => FailureKeepsInv(r, ttl);
    case OtherTraffic(e, now) => TrafficKeepsInv(r, e, now, ttl);
    case Stops => StopKeepsAwake(r.m, Absent, false);
  }

  // ---------------------------------------------------------------- runs

  function Initial(me: Runtime, maxPending: nat, now: int): Relay {
    Relay(NewManager(me, FollowerMode, maxPending).(phase := Running), [], [], [], {}, {},
          Dedupe.Tables(map[], map[]), now, [], map[], {})
  }

  ghost predicate IsRun(states: seq<Relay>, steps: seq<Step>, ttl: int) {
    && |states| == |steps| + 1
    && forall i :: 0 <= i < |steps| ==>
         Possible(states[i], steps[i]) && InTime(states[i], steps[i], ttl) && states[i + 1] == Next(states[i], steps[i], ttl)
  }

  lemma {:induction false} RunKeepsInv(states: seq<Relay>, steps: seq<Step>, ttl: int, me: Runtime, maxPending: nat, now: int, n: nat)
    requires IsRun(states, steps, ttl) && states[0] == Initial(me, maxPending, now) && maxPending >= 1 && n < |states|
    ensures Inv(states[n], ttl)
  {
    if n > 0 {
      RunKeepsInv(states, steps, ttl, me, maxPending, now, n - 1);
      NextKeepsInv(states[n - 1], steps[n - 1], ttl);
    }
  }

  /**
   * However many copies and acknowledgements are lost, delayed or repeated, the owner runs each
   * event once and in dispatch order: what was dispatched is what was acknowledged followed by
   * what is queued, and what was run is what was acknowledged, or that and the head of the queue.
   */
  lemma RunsOnceInOrder(states: seq<Relay>, steps: seq<Step>, ttl: int, me: Runtime, maxPending: nat, now: int, n: nat)
    requires IsRun(states, steps, ttl) && states[0] == Initial(me, maxPending, now) && maxPending >= 1 && n < |states|
    ensures var r := states[n];
      && r.dispatched == r.acked + r.m.pending
      && (r.processed == r.acked || (r.m.pending != [] && r.processed == r.acked + [r.m.pending[0]]))
      && r.processed <= r.dispatched
      && (forall i, j :: 0 <= i < j < |r.processed| ==> r.processed[i] != r.processed[j])
  {
    RunKeepsInv(states, steps, ttl, me, maxPending, now, n);
  }
}
