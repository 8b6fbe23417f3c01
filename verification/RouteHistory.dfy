/**
 * What the tracker remembers of where a session talks: which route an observation notes and how
 * it combines with what was noted before, what merging records makes of their routes, and which
 * route a query is answered.
 */
module RouteHistory {
  import opened Options
  import opened SessionKeys
  import opened SessionRecords
  import opened SessionRuns

  // ---------------------------------------------------------------- routes field by field

  datatype RouteField = Provider | Surface | Account | Channel | Conversation | Thread | Message | From | To | Sender | SenderName

  function FieldOf(r: Route, f: RouteField): Option<string> {
    match f
    case Provider => r.provider
    case Surface => r.surface
    case Account => r.accountId
    case Channel => r.channelId
    case Conversation => r.conversationId
    case Thread => r.threadId
    case Message => r.messageId
    case From => r.from
    case To => r.to
    case Sender => r.senderId
    case SenderName => r.senderName
  }

  /** The fields that tell routes of one session apart. */
  predicate TellsApart(f: RouteField) {
    f.Provider? || f.Surface? || f.Account? || f.Channel? || f.Conversation? || f.Thread?
  }

  /** What a session key says about a route. */
  function KeyPart(key: ParsedSessionKey, f: RouteField): Option<string> {
    match f
    case Provider => key.provider
    case Surface => key.surface
    case Account => key.accountId
    case Thread => key.threadToken
    case _ => None
  }

  ghost predicate FirstThreadKey(keys: seq<string>, i: nat) {
    i < |keys| && ThreadScoped(keys[i]) && forall j :: 0 <= j < i ==> !ThreadScoped(keys[j])
  }

  /** The observation's own value for the field, or else that of its first thread-scoped key, or none. */
  ghost predicate SaysField(p: Observation, f: RouteField, value: Option<string>) {
    if p.route.Some? && FieldOf(p.route.value, f).Some? then value == FieldOf(p.route.value, f)
    else if i: nat :| FirstThreadKey(SessionKeysOf(p), i) then value == KeyPart(ParseSessionKey(SessionKeysOf(p)[i]).value, f)
    else value == None
  }

  /** The route that the observation speaks of. */
  ghost predicate Says(p: Observation, r: Route) {
    forall f :: SaysField(p, f, FieldOf(r, f))
  }

  predicate Distinguished(r: Route) {
    exists f :: TellsApart(f) && NonBlankOption(FieldOf(r, f))
  }

  ghost predicate OfKey(r: Route, key: ParsedSessionKey) {
    forall f :: FieldOf(r, f) == KeyPart(key, f)
  }

  function KeyRoute(key: ParsedSessionKey): Route {
    EMPTY_ROUTE.(provider := key.provider, surface := key.surface, accountId := key.accountId, threadId := key.threadToken)
  }

  lemma KeyRouteIsOfKey(key: ParsedSessionKey)
    ensures OfKey(KeyRoute(key), key) && RouteFromParsedSession(Some(key)) == RouteOrUndefined(KeyRoute(key))
  {
  }

  lemma {:induction false} PickedRoute(keys: seq<string>) returns (r: Route)
    ensures PickParsedRoute(keys) == RouteOrUndefined(r)
    ensures (forall i: nat :: !FirstThreadKey(keys, i)) ==> r == EMPTY_ROUTE
    ensures forall i: nat :: FirstThreadKey(keys, i) ==> OfKey(r, ParseSessionKey(keys[i]).value)
    decreases |keys|
  {
    hide ParseSessionKey, OfKey, KeyRoute, RouteFromParsedSession;
    if keys == [] {
      r := EMPTY_ROUTE;
    } else if ThreadScoped(keys[0]) {
      var parsed := ParseSessionKey(keys[0]).value;
      r := KeyRoute(parsed);
      KeyRouteIsOfKey(parsed);
      assert FirstThreadKey(keys, 0);
    } else {
      r := PickedRoute(keys[1..]);
      forall i: nat ensures FirstThreadKey(keys, i) <==> i > 0 && FirstThreadKey(keys[1..], i - 1) {
        NextThreadKey(keys, i);
      }
      if forall i: nat :: !FirstThreadKey(keys, i) {
        forall i: nat ensures !FirstThreadKey(keys[1..], i) { assert !FirstThreadKey(keys, i + 1); }
      }
    }
  }

  lemma NextThreadKey(keys: seq<string>, i: nat)
    requires keys != [] && !ThreadScoped(keys[0])
    ensures FirstThreadKey(keys, i) <==> i > 0 && FirstThreadKey(keys[1..], i - 1)
  {
    hide ThreadScoped;
    if i > 0 && FirstThreadKey(keys[1..], i - 1) {
      forall j | 0 <= j < i ensures !ThreadScoped(keys[j]) {
        assert j > 0 ==> keys[1..][j - 1] == keys[j];
      }
    }
    if FirstThreadKey(keys, i) {
      assert i > 0;
      forall j | 0 <= j < i - 1 ensures !ThreadScoped(keys[1..][j]) {
        assert keys[1..][j] == keys[j + 1];
      }
    }
  }

  function Overlaid(b: Route, o: Route): Route {
    Route(
      o.provider.OrElse(b.provider), o.surface.OrElse(b.surface), o.accountId.OrElse(b.accountId),
      o.channelId.OrElse(b.channelId), o.conversationId.OrElse(b.conversationId), o.threadId.OrElse(b.threadId),
      o.messageId.OrElse(b.messageId), o.from.OrElse(b.from), o.to.OrElse(b.to),
      o.senderId.OrElse(b.senderId), o.senderName.OrElse(b.senderName))
  }

  lemma OverlaidField(b: Route, o: Route)
    ensures forall f :: FieldOf(Overlaid(b, o), f) == if FieldOf(o, f).Some? then FieldOf(o, f) else FieldOf(b, f)
    ensures forall x, y :: RouteOrUndefined(b) == x && (y == RouteOrUndefined(o) || y == Some(o)) ==>
      MergeRouteMetadata(x, y) == RouteOrUndefined(Overlaid(b, o))
    ensures forall f :: FieldOf(EMPTY_ROUTE, f) == None
  {
  }

  lemma ObservedIsSaid(p: Observation) returns (r: Route)
    ensures Says(p, r) && ObservedRoute(p) == RouteOrUndefined(r)
  {
    var keys := SessionKeysOf(p);
    var b := PickedRoute(keys);
    var o := p.route.GetOr(EMPTY_ROUTE);
    r := Overlaid(b, o);
    OverlaidField(b, o);
    assert RouteOrUndefined(EMPTY_ROUTE) == None;
    hide ParseSessionKey, SessionKeysOf, FirstThreadKey, FieldOf, KeyPart, Overlaid, MergeRouteMetadata;
    forall f ensures SaysField(p, f, FieldOf(r, f)) {
      SaidByKey(keys, b, f);
    }
  }

  lemma SaidByKey(keys: seq<string>, b: Route, f: RouteField)
    requires forall i: nat :: FirstThreadKey(keys, i) ==> OfKey(b, ParseSessionKey(keys[i]).value)
    requires (forall i: nat :: !FirstThreadKey(keys, i)) ==> b == EMPTY_ROUTE
    ensures if i: nat :| FirstThreadKey(keys, i) then FieldOf(b, f) == KeyPart(ParseSessionKey(keys[i]).value, f) else FieldOf(b, f) == None
  {
    OverlaidField(b, b);
    hide ParseSessionKey, FirstThreadKey, FieldOf, KeyPart;
  }

  /** A route has a key exactly if one of the telling fields is not blank. */
  lemma KeyIffDistinguished(r: Route)
    ensures BuildRouteKey(RouteOrUndefined(r)).Some? <==> Distinguished(r)
    ensures BuildRouteKey(RouteOrUndefined(r)) == BuildRouteKey(Some(r))
  {
    var r1, r2, r3 := NonBlankOption(FieldOf(r, Provider)), NonBlankOption(FieldOf(r, Surface)), NonBlankOption(FieldOf(r, Account));
    var r4, r5, r6 := NonBlankOption(FieldOf(r, Channel)), NonBlankOption(FieldOf(r, Conversation)), NonBlankOption(FieldOf(r, Thread));
    assert Distinguished(r) <==> r1 || r2 || r3 || r4 || r5 || r6;
    hide NonBlank, Join;
  }

  // ---------------------------------------------------------------- what an observation notes

  /** The entry after the observation of the route. */
  ghost predicate Noted(was: Option<RouteObservation>, e: RouteObservation, p: Observation, r: Route) {
    && e.lastSeenAt == p.now
    && e.firstSeenAt == (if was.Some? then was.value.firstSeenAt else p.now)
    && (forall f :: FieldOf(e.route, f)
          == if FieldOf(r, f).Some? then FieldOf(r, f) else if was.Some? then FieldOf(was.value.route, f) else None)
    && e.lastInboundAt == (if p.direction.Inbound? then Some(p.now) else if was.Some? then was.value.lastInboundAt else None)
    && e.lastOutboundAt == (if p.direction.Outbound? then Some(p.now) else if was.Some? then was.value.lastOutboundAt else None)
    && (forall x :: x in e.runIds <==> (p.runId == Some(x) && NonBlank(x)) || (was.Some? && x in was.value.runIds))
  }

  /** The routes after the observation: the entry under the route's key is noted, every other one is as before. */
  ghost predicate NotesRoute(before: map<string, RouteObservation>, after: map<string, RouteObservation>, p: Observation, r: Route) {
    if !Distinguished(r) then after == before
    else
      BuildRouteKey(Some(r)).Some? &&
      var key := BuildRouteKey(Some(r)).value;
      && after.Keys == before.Keys + {key}
      && (forall k :: k in before && k != key ==> after[k] == before[k])
      && Noted(if key in before then Some(before[key]) else None, after[key], p, r)
  }

  lemma ObserveNotesRoute(routes: map<string, RouteObservation>, p: Observation) returns (r: Route)
    ensures Says(p, r) && NotesRoute(routes, ObserveRoute(routes, p), p, r)
  {
    r := ObservedIsSaid(p);
    KeyIffDistinguished(r);
    hide Says, BuildRouteKey, Distinguished, ObservedRoute, NonBlank;
    if Distinguished(r) {
      assert r != EMPTY_ROUTE by { EmptyIsNotDistinguished(); }
      var key := BuildRouteKey(Some(r)).value;
      NotesEntry(routes, p, r, key);
    }
  }

  lemma EmptyIsNotDistinguished()
    ensures !Distinguished(EMPTY_ROUTE)
  {
  }

  lemma NotesEntry(routes: map<string, RouteObservation>, p: Observation, r: Route, key: string)
    requires ObservedRoute(p) == Some(r) && r != EMPTY_ROUTE && BuildRouteKey(Some(r)) == Some(key)
    ensures var after := ObserveRoute(routes, p);
      && after.Keys == routes.Keys + {key} && (forall k :: k in routes && k != key ==> after[k] == routes[k])
      && Noted(if key in routes then Some(routes[key]) else None, after[key], p, r)
  {
    hide ObservedRoute, BuildRouteKey, NonBlank;
    var was := Lookup(routes, key);
    var e := ObserveRoute(routes, p)[key];
    if was.Some? {
      MergedField(was.value.route, r);
    } else {
      MergedField(r, r);
    }
    hide MergeRouteMetadata, FieldOf;
  }

  /** Merging metadata takes, field by field, the second route's value if it has one. */
  lemma MergedField(a: Route, b: Route)
    requires b != EMPTY_ROUTE
    ensures var m := MergeRouteMetadata(Some(a), Some(b));
      m.Some? && forall f :: FieldOf(m.value, f) == if FieldOf(b, f).Some? then FieldOf(b, f) else FieldOf(a, f)
  {
    OverlaidField(a, b);
    if forall f :: FieldOf(b, f) == None {
      NoFieldIsEmpty(b);
    }
    SomeFieldIsNotEmpty(Overlaid(a, b));
    hide FieldOf, Overlaid;
  }

  lemma NoFieldIsEmpty(r: Route)
    requires forall f :: FieldOf(r, f) == None
    ensures r == EMPTY_ROUTE
  {
    assert FieldOf(r, Provider) == None && FieldOf(r, Surface) == None && FieldOf(r, Account) == None && FieldOf(r, Channel) == None;
    assert FieldOf(r, Conversation) == None && FieldOf(r, Thread) == None && FieldOf(r, Message) == None && FieldOf(r, From) == None;
    assert FieldOf(r, To) == None && FieldOf(r, Sender) == None && FieldOf(r, SenderName) == None;
  }

  lemma SomeFieldIsNotEmpty(r: Route)
    ensures r == EMPTY_ROUTE ==> forall f :: FieldOf(r, f) == None
  {
  }

  lemma SameRoute(a: Route, b: Route)
    requires forall f :: FieldOf(a, f) == FieldOf(b, f)
    ensures a == b
  {
    assert FieldOf(a, Provider) == FieldOf(b, Provider) && FieldOf(a, Surface) == FieldOf(b, Surface) && FieldOf(a, Account) == FieldOf(b, Account);
    assert FieldOf(a, Channel) == FieldOf(b, Channel) && FieldOf(a, Conversation) == FieldOf(b, Conversation) && FieldOf(a, Thread) == FieldOf(b, Thread);
    assert FieldOf(a, Message) == FieldOf(b, Message) && FieldOf(a, From) == FieldOf(b, From) && FieldOf(a, To) == FieldOf(b, To);
    assert FieldOf(a, Sender) == FieldOf(b, Sender) && FieldOf(a, SenderName) == FieldOf(b, SenderName);
  }

  // ---------------------------------------------------------------- an accepted observation

  /** The routes of the record that the observation is noted in, before it is. */
  ghost function RoutesBefore(t: Tracker, p: Observation): map<string, RouteObservation>
    requires ValidTracker(t) && Accepted(t.records, p)
  {
    if Joined(t.records, p) == {} then map[]
    else
      ResolveShape(t.records, p);
      Resolve(t.records, p).0[Home(t, p)].routes
  }

  lemma ObservedRecord(t: Tracker, p: Observation)
    requires ValidTracker(t) && Accepted(t.records, p)
    ensures var after, home := Observe(t, p).records, Home(t, p);
      home in after && after[home] == Extend(if Joined(t.records, p) == {} then NewRecord(p.now) else Resolve(t.records, p).0[home], p)
    ensures Joined(t.records, p) != {} ==> Home(t, p) in Resolve(t.records, p).0
  {
    ResolveShape(t.records, p);
    hide Extend, HasStrongIdentifiers, Joined;
    var after, resolution := Resolve(t.records, p).0, Resolve(t.records, p).1;
    if resolution.Resolved? {
      assert Observe(t, p) == t.(records := after[resolution.id := Extend(after[resolution.id], p)]);
    } else {
      assert Observe(t, p) == Tracker(after[t.nextId := Extend(NewRecord(p.now), p)], t.nextId + 1);
    }
  }

  /**
   * An accepted observation notes the route it speaks of in the record it is recorded in: when it
   * was seen first and last, from which side, by which runs, and field by field the newest value.
   */
  lemma ObservationNotesRoute(t: Tracker, p: Observation) returns (r: Route)
    requires ValidTracker(t) && Accepted(t.records, p)
    ensures Says(p, r)
    ensures var after, home := Observe(t, p).records, Home(t, p);
      home in after && NotesRoute(RoutesBefore(t, p), after[home].routes, p, r)
  {
    ObservedRecord(t, p);
    hide Resolve, Accepted, Joined, Observe, Home, Says, NotesRoute;
    r := ObserveNotesRoute(RoutesBefore(t, p), p);
    hide ObserveRoute;
  }

  /** It also tells when and by whom the session is used; what it leaves open stays as it was. */
  lemma ObservationTellsWho(t: Tracker, p: Observation)
    requires ValidTracker(t) && Accepted(t.records, p)
    ensures var after, home := Observe(t, p).records, Home(t, p);
      home in after && after[home].lastTouchedAt == p.now
    ensures var e := Observe(t, p).records[Home(t, p)];
      if Joined(t.records, p) == {} then
        && e.startTime == p.now && e.agentId == p.agentId && e.parentAgentId == p.parentAgentId
        && e.parentSessionId == p.parentSessionId && e.parentSessionKey == p.parentSessionKey
      else
        Home(t, p) in Resolve(t.records, p).0 &&
        var before := Resolve(t.records, p).0[Home(t, p)];
        && e.startTime == before.startTime
        && e.agentId == (if p.agentId.Some? then p.agentId else before.agentId)
        && e.parentAgentId == (if p.parentAgentId.Some? then p.parentAgentId else before.parentAgentId)
        && e.parentSessionId == (if p.parentSessionId.Some? then p.parentSessionId else before.parentSessionId)
        && e.parentSessionKey == (if p.parentSessionKey.Some? then p.parentSessionKey else before.parentSessionKey)
  {
    ObservedRecord(t, p);
    hide Resolve, Accepted, Joined, Observe, Home, ObserveRoute, StrongKeys, SessionIds, SessionKeysOf;
  }

  // ---------------------------------------------------------------- which observations are accepted

  /** The records that carry one of the shared aliases the observation mentions. */
  ghost function AliasCarriers(records: Records, p: Observation): set<RecordId> {
    set r | r in records && exists x :: Mentions(p, x) && !Strong(x) && Holds(records[r], x)
  }

  /**
   * An observation counts exactly if it mentions a session id, a strong key or a known run, and
   * if nothing it mentions is known but by shared aliases of several records.
   */
  lemma AcceptedIff(records: Records, p: Observation)
    requires Inv(records)
    ensures Accepted(records, p) <==>
      && (exists x :: Mentions(p, x) && Strong(x) && (x.Run? ==> Owned(records, x)))
      && ((exists x :: Mentions(p, x) && Strong(x) && Owned(records, x)) || |AliasCarriers(records, p)| <= 1)
  {
    HasStrongIffMentioned(p);
    CarriersAreWeak(records, p);
    MatchedIffKnown(records, p);
    RunIsMentioned(records, p);
    hide HasStrongIdentifiers, StrongIdents, StrongMatches, WeakMatches, Mentions, Holds, Inv, AliasCarriers, Owned;
  }

  lemma RunIsMentioned(records: Records, p: Observation)
    requires Inv(records)
    ensures p.runId.Some? && p.runId.value != "" && Owned(records, Run(p.runId.value)) ==> Mentions(p, Run(p.runId.value))
    ensures forall x: Ident :: x.Run? && Mentions(p, x) ==> p.runId == Some(x.value) && x.value != ""
  {
    if p.runId.Some? && Owned(records, Run(p.runId.value)) {
      var r :| r in records && Holds(records[r], Run(p.runId.value));
      assert WellFormed(records[r]);
    }
  }

  lemma CarriersAreWeak(records: Records, p: Observation)
    ensures AliasCarriers(records, p) == WeakMatches(records, p)
  {
    forall r ensures r in AliasCarriers(records, p) <==> r in WeakMatches(records, p) {
      if r in WeakMatches(records, p) {
        var k :| k in SessionKeysOf(p) && !IsStrongSessionKey(k) && k in records[r].sessionKeys;
        assert Mentions(p, Key(k)) && !Strong(Key(k)) && Holds(records[r], Key(k));
      }
    }
  }

  lemma MatchedIffKnown(records: Records, p: Observation)
    requires Inv(records)
    ensures StrongMatches(records, StrongIdents(p)) != [] <==> exists x :: Mentions(p, x) && Strong(x) && Owned(records, x)
  {
    var ms := StrongMatches(records, StrongIdents(p));
    hide Inv, Mentions;
    if ms != [] {
      assert ms[0] in records;
      var x :| x in StrongIdents(p) && Holds(records[ms[0]], x);
      StrongIdentsAre(p, x);
    }
    if x :| Mentions(p, x) && Strong(x) && Owned(records, x) {
      var r :| r in records && Holds(records[r], x);
      KnownIsJoined(records, p, x, r);
    }
  }

  /** What an observation mentions, read off its fields: blank values never count, and a session id of the form agent: is a key as well. */
  lemma MentionsAre(p: Observation, s: string)
    ensures Mentions(p, Sid(s)) <==> NonBlank(s) && (p.sessionId == Some(s) || s in p.aliasSessionIds)
    ensures Mentions(p, Key(s)) <==>
      NonBlank(s) && (p.sessionKey == Some(s) || s in p.aliasSessionKeys || (Mentions(p, Sid(s)) && "agent:" <= s))
    ensures Mentions(p, Run(s)) <==> NonBlank(s) && p.runId == Some(s)
  {
  }
}
