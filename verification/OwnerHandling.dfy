/**
 * The owner's handling of the events that reach it: an event is marked as seen before its
 * handler runs, and a dropped one is acknowledged like a handled one.
 */
module OwnerHandling {
  import opened Options
  import opened Dedupe
  import SemanticKeys
  import SemanticKeyBars

  // ---------------------------------------------------------------- handlers that fail

  /** Copies of events at the owner, and for each whether its handler, if it runs, succeeds. */
  datatype Copy = Copy(arrival: Arrival, succeeds: bool)

  function Arrivals(copies: seq<Copy>): (run: seq<Arrival>)
    ensures |run| == |copies| && forall i :: 0 <= i < |copies| ==> run[i] == copies[i].arrival
  {
    seq(|copies|, i requires 0 <= i < |copies| => copies[i].arrival)
  }

  /** The sender of copy j gets a positive answer: nothing was run, or the handler succeeded. */
  predicate Acknowledged(copies: seq<Copy>, c: Config, j: nat)
    requires j < |copies|
  {
    Accepted(Arrivals(copies), c, j) ==> copies[j].succeeds
  }

  /** Copy i is of the same event as copy j and its handler ran. */
  predicate RanFor(copies: seq<Copy>, c: Config, i: nat, j: nat)
    requires i < |copies| && j < |copies|
  {
    copies[i].arrival.id == copies[j].arrival.id && Accepted(Arrivals(copies), c, i)
  }

  /** Copy j is acknowledged although the handler never succeeded for its event. */
  ghost predicate LostAt(copies: seq<Copy>, c: Config, j: nat)
    requires j < |copies|
  {
    Acknowledged(copies, c, j) && forall i :: 0 <= i <= j && RanFor(copies, c, i, j) ==> !copies[i].succeeds
  }

  /**
   * Arrival j comes while a mark of arrival i is live: of its id, which even a dropped arrival
   * leaves, or of its semantic key, which only a handled one leaves.
   */
  ghost predicate Repeats(run: seq<Arrival>, c: Config, i: nat, j: nat)
    requires i < |run| && j < |run|
  {
    && run[j].now < run[i].now + c.ttl
    && ((run[i].id == run[j].id && Marked(run, c, i))
        || (c.semantic && run[i].key.Some? && run[i].key == run[j].key && Accepted(run, c, i)))
  }

  /** An arrival is dropped exactly when it repeats an earlier one. */
  lemma DroppedIffRepeats(run: seq<Arrival>, c: Config, j: nat)
    requires j < |run| && ClockForward(run)
    ensures !Accepted(run, c, j) <==> exists i :: 0 <= i < j && Repeats(run, c, i, j)
  {
    if i :| 0 <= i < j && Repeats(run, c, i, j) {
      assert run[j - 1].now <= run[j].now;
      if run[i].id == run[j].id && Marked(run, c, i) {
        IdStays(run, c, i, j);
      } else {
        KeyStays(run, c, i, j);
      }
    }
    if !Marked(run, c, j) {
      var i := IdOrigin(run, c, j, run[j].id);
      assert Repeats(run, c, i, j);
    } else if !Accepted(run, c, j) {
      var i := KeyOrigin(run, c, j, run[j].key.value);
      assert Repeats(run, c, i, j);
    }
  }

  /** An event is acknowledged and lost exactly when a copy of it repeats an arrival and no copy before was handled. */
  lemma LostIffRepeatsUnhandled(copies: seq<Copy>, c: Config, j: nat)
    requires j < |copies| && ClockForward(Arrivals(copies))
    ensures LostAt(copies, c, j) <==>
      && (exists i :: 0 <= i < j && Repeats(Arrivals(copies), c, i, j))
      && (forall i :: 0 <= i < j && RanFor(copies, c, i, j) ==> !copies[i].succeeds)
  {
    DroppedIffRepeats(Arrivals(copies), c, j);
    assert RanFor(copies, c, j, j) <==> Accepted(Arrivals(copies), c, j);
    hide Repeats, Accepted;
  }

  /** Copy j comes within the time to live of a run of its own event's handler. */
  ghost predicate RetriedTooSoon(copies: seq<Copy>, c: Config, j: nat)
    requires j < |copies|
  {
    exists i :: 0 <= i < j && RanFor(copies, c, i, j) && copies[j].arrival.now < copies[i].arrival.now + c.ttl
  }

  /** Without semantic matching that is a retransmission within the time to live of a failed attempt, and no earlier success. */
  lemma LostIffRetriedTooSoon(copies: seq<Copy>, c: Config, j: nat)
    requires j < |copies| && !c.semantic && ClockForward(Arrivals(copies))
    ensures LostAt(copies, c, j) <==>
      RetriedTooSoon(copies, c, j) && forall i :: 0 <= i < j && RanFor(copies, c, i, j) ==> !copies[i].succeeds
  {
    LostIffRepeatsUnhandled(copies, c, j);
    forall i | 0 <= i < j
      ensures Repeats(Arrivals(copies), c, i, j)
        <==> RanFor(copies, c, i, j) && copies[j].arrival.now < copies[i].arrival.now + c.ttl
    {
      assert Marked(Arrivals(copies), c, i) <==> Accepted(Arrivals(copies), c, i);
    }
    hide Repeats, RanFor, LostAt;
  }

  /**
   * With semantic matching a failed event can be lost long after its attempt: another event of
   * its meaning runs meanwhile, and the retransmission is dropped for that one's key.
   */
  lemma LostToAnotherEvent(ttl: int, a: Token, b: Token, key: Token)
    requires ttl >= 2 && a != b
    ensures var copies := [Copy(Arrival(0, a, Some(key)), false), Copy(Arrival(ttl, b, Some(key)), true),
                           Copy(Arrival(ttl + 1, a, Some(key)), true)];
      LostAt(copies, Config(ttl, true), 2) && !RetriedTooSoon(copies, Config(ttl, true), 2)
  {
    var copies := [Copy(Arrival(0, a, Some(key)), false), Copy(Arrival(ttl, b, Some(key)), true),
                   Copy(Arrival(ttl + 1, a, Some(key)), true)];
    var c, run := Config(ttl, true), Arrivals(copies);
    assert Before(run, c, 0) == Tables(map[], map[]);
    assert Before(run, c, 1) == Tables(map[a := ttl], map[key := ttl]);
    assert Before(run, c, 2) == Tables(map[b := 2 * ttl], map[key := 2 * ttl]);
  }

  // ---------------------------------------------------------------- arrivals of events

  /** An event as it reaches the owner. */
  datatype Seen = Seen(event: SemanticKeys.Event, now: int)

  function ArrivalOf(s: Seen): Arrival {
    Arrival(s.now, s.event.eventId, SemanticKeys.BuildSemanticKey(s.event))
  }

  function RunOf(events: seq<Seen>): (run: seq<Arrival>)
    ensures |run| == |events| && forall i :: 0 <= i < |events| ==> run[i] == ArrivalOf(events[i])
  {
    seq(|events|, i requires 0 <= i < |events| => ArrivalOf(events[i]))
  }

  ghost predicate AllValid(events: seq<Seen>) {
    forall i :: 0 <= i < |events| ==> SemanticKeys.ValidEvent(events[i].event)
  }

  /** With semantic matching, two events of the same meaning, if it has a key, are not both run within the time to live. */
  lemma SameMeaningRunsOnceAWindow(events: seq<Seen>, c: Config, i: nat, j: nat)
    requires i < j < |events| && AllValid(events) && ClockForward(RunOf(events)) && c.semantic
    requires Accepted(RunOf(events), c, i) && Accepted(RunOf(events), c, j)
    requires SemanticKeys.SameMeaning(events[i].event, events[j].event) && SemanticKeys.BuildSemanticKey(events[i].event).Some?
    ensures events[j].now - events[i].now >= c.ttl
  {
    SemanticKeys.SameMeaningSameKey(events[i].event, events[j].event);
    AcceptedAreApart(RunOf(events), c, i, j);
  }

  /** The same id means the same event. */
  ghost predicate IdsDetermineEvents(events: seq<Seen>) {
    forall i, j :: 0 <= i < |events| && 0 <= j < |events| && events[i].event.eventId == events[j].event.eventId
      ==> events[i].event == events[j].event
  }

  /** A dropped event without bars in its plain fields repeats one of the same meaning that was run. */
  lemma DroppedRepeatsMeaning(events: seq<Seen>, c: Config, j: nat) returns (i: nat)
    requires j < |events| && AllValid(events) && IdsDetermineEvents(events) && ClockForward(RunOf(events))
    requires !Accepted(RunOf(events), c, j) && SemanticKeys.BarFree(events[j].event)
    ensures i < j && Accepted(RunOf(events), c, i) && events[j].now - events[i].now < 2 * c.ttl
    ensures events[i].event == events[j].event || SemanticKeys.SameMeaning(events[i].event, events[j].event)
  {
    var run := RunOf(events);
    i := DroppedRepeatsAccepted(run, c, j);
    assert run[i].now <= run[j].now;
    if run[i].id != run[j].id {
      KeyIdentifiesBoth(events[j].event, events[i].event);
    }
  }

  lemma KeyIdentifiesBoth(e: SemanticKeys.Event, f: SemanticKeys.Event)
    requires SemanticKeys.ValidEvent(e) && SemanticKeys.ValidEvent(f) && SemanticKeys.BarFree(e)
    requires SemanticKeys.BuildSemanticKey(e).Some? && SemanticKeys.BuildSemanticKey(e) == SemanticKeys.BuildSemanticKey(f)
    ensures SemanticKeys.SameMeaning(f, e)
  {
    SemanticKeyBars.KeyIdentifiesMeaning(e, f);
    SemanticKeys.SameMeaningIsSymmetric(e, f);
  }
}
