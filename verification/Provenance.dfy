/**
 * When tool events carry route fields: the bridge from a tracker snapshot to the emitted
 * provenance.
 */
module Provenance {
  import opened Options
  import opened SessionKeys
  import opened SessionRecords
  import opened SessionRuns

  /** The route, completed from the parsed session key. */
  function MergeParsedRoute(route: Option<Route>, parsed: Option<ParsedSessionKey>): Option<Route> {
    if parsed.None? then route
    else
      var r, p := route.GetOr(EMPTY_ROUTE), parsed.value;
      RouteOrUndefined(r.(
        provider := r.provider.OrElse(p.provider), surface := r.surface.OrElse(p.surface),
        accountId := r.accountId.OrElse(p.accountId), threadId := r.threadId.OrElse(p.threadToken)))
  }

  /** The eleven route fields of a tool event; undefined fields are not emitted. */
  function EmittedRoute(snapshot: Snapshot): Route {
    if snapshot.resolution == ResolvedRoute then MergeParsedRoute(snapshot.route, snapshot.parsed).GetOr(EMPTY_ROUTE)
    else EMPTY_ROUTE
  }

  /** The fields come from the route, with the session key filling in only what the route lacks. */
  predicate Completes(emitted: Route, route: Route, parsed: Option<ParsedSessionKey>) {
    && emitted.channelId == route.channelId && emitted.conversationId == route.conversationId
    && emitted.messageId == route.messageId && emitted.from == route.from && emitted.to == route.to
    && emitted.senderId == route.senderId && emitted.senderName == route.senderName
    && emitted.provider == route.provider.OrElse(if parsed.Some? then parsed.value.provider else None)
    && emitted.surface == route.surface.OrElse(if parsed.Some? then parsed.value.surface else None)
    && emitted.accountId == route.accountId.OrElse(if parsed.Some? then parsed.value.accountId else None)
    && emitted.threadId == route.threadId.OrElse(if parsed.Some? then parsed.value.threadToken else None)
  }

  /** The only route candidate of the record, seen no longer ago than the route's time to live. */
  ghost predicate OnlyFreshCandidate(record: Record, p: Observation, ttl: int, routeKey: string) {
    && SelectRouteCandidates(record.routes, p.runId).Keys == {routeKey}
    && p.now - SelectRouteCandidates(record.routes, p.runId)[routeKey].lastSeenAt <= ttl
  }

  /** What the event emits is the only fresh candidate of the record. */
  ghost predicate EmitsOnlyCandidate(record: Record, p: Observation, ttl: int, snapshot: Snapshot) {
    exists k :: OnlyFreshCandidate(record, p, ttl, k) &&
      Completes(EmittedRoute(snapshot), SelectRouteCandidates(record.routes, p.runId)[k].route, snapshot.parsed)
  }

  /**
   * A tool event carries a route field only if the query ended in one record that has exactly
   * one unexpired route candidate, and then all its route fields are that candidate's.
   */
  lemma RouteFieldsNeedOneFreshCandidate(t: Tracker, p: Observation, ttl: int, snapshot: Snapshot)
    requires ValidTracker(t)
    ensures var after, resolution := QueryProvenance(t, p, ttl).records, Resolve(t.records, p).1;
      Describes(snapshot, after, resolution, p) && EmittedRoute(snapshot) != EMPTY_ROUTE ==>
        resolution.Resolved? && resolution.id in after && EmitsOnlyCandidate(after[resolution.id], p, ttl, snapshot)
  {
    if Describes(snapshot, QueryProvenance(t, p, ttl).records, Resolve(t.records, p).1, p) && EmittedRoute(snapshot) != EMPTY_ROUTE {
      EmittedIsOnlyCandidate(t, p, ttl, snapshot);
    }
  }

  lemma EmittedIsOnlyCandidate(t: Tracker, p: Observation, ttl: int, snapshot: Snapshot)
    requires ValidTracker(t) && EmittedRoute(snapshot) != EMPTY_ROUTE
    requires Describes(snapshot, QueryProvenance(t, p, ttl).records, Resolve(t.records, p).1, p)
    ensures var after, resolution := QueryProvenance(t, p, ttl).records, Resolve(t.records, p).1;
      resolution.Resolved? && resolution.id in after && EmitsOnlyCandidate(after[resolution.id], p, ttl, snapshot)
  {
    hide Resolve, ValidTracker;
    var after, resolution := QueryProvenance(t, p, ttl).records, Resolve(t.records, p).1;
    ResolveShape(t.records, p);
    var id := resolution.id;
    var candidates := SelectRouteCandidates(after[id].routes, p.runId);
    var k :| k in candidates && snapshot.route == Some(candidates[k].route);
    SingletonOf(candidates.Keys, k);
    assert k in after[id].routes && candidates[k] == after[id].routes[k];
    assert OnlyFreshCandidate(after[id], p, ttl, k);
  }

  /** The query ended in one record with exactly one unexpired route candidate. */
  ghost predicate HasOneFreshCandidate(after: Records, resolution: Resolution, p: Observation, ttl: int) {
    resolution.Resolved? && resolution.id in after && exists k :: OnlyFreshCandidate(after[resolution.id], p, ttl, k)
  }

  /**
   * The event says that the route is resolved exactly in that case; then it carries the
   * candidate's fields completed from the key, and otherwise none.
   */
  lemma RouteResolvedIffOneFreshCandidate(t: Tracker, p: Observation, ttl: int, snapshot: Snapshot)
    requires ValidTracker(t)
    ensures var after, resolution := QueryProvenance(t, p, ttl).records, Resolve(t.records, p).1;
      Describes(snapshot, after, resolution, p) ==>
        && (snapshot.resolution == ResolvedRoute <==> HasOneFreshCandidate(after, resolution, p, ttl))
        && (if snapshot.resolution == ResolvedRoute then EmitsOnlyCandidate(after[resolution.id], p, ttl, snapshot)
            else EmittedRoute(snapshot) == EMPTY_ROUTE)
  {
    var after, resolution := QueryProvenance(t, p, ttl).records, Resolve(t.records, p).1;
    if Describes(snapshot, after, resolution, p) && resolution.Resolved? {
      ResolvedRecordRoute(t, p, ttl, snapshot);
    }
    hide Resolve, QueryProvenance, MergeParsedRoute, EmitsOnlyCandidate, ValidTracker;
  }

  lemma ResolvedRecordRoute(t: Tracker, p: Observation, ttl: int, snapshot: Snapshot)
    requires ValidTracker(t) && Resolve(t.records, p).1.Resolved?
    requires Describes(snapshot, QueryProvenance(t, p, ttl).records, Resolve(t.records, p).1, p)
    ensures var after, resolution := QueryProvenance(t, p, ttl).records, Resolve(t.records, p).1;
      && (snapshot.resolution == ResolvedRoute <==> HasOneFreshCandidate(after, resolution, p, ttl))
      && (snapshot.resolution == ResolvedRoute ==> EmitsOnlyCandidate(after[resolution.id], p, ttl, snapshot))
  {
    var after, id := QueryProvenance(t, p, ttl).records, Resolve(t.records, p).1.id;
    ResolvedIsFresh(t, p, ttl);
    hide Resolve, ValidTracker, QueryProvenance, SelectRouteCandidates, SelectedParsed, MergeParsedRoute, Completes;
    DescribedRoute(after[id], p, ttl, snapshot);
  }

  lemma ResolvedIsFresh(t: Tracker, p: Observation, ttl: int)
    requires ValidTracker(t) && Resolve(t.records, p).1.Resolved?
    ensures var after, id := QueryProvenance(t, p, ttl).records, Resolve(t.records, p).1.id;
      id in after && Fresh(after[id].routes, ttl, p.now)
  {
    ResolveShape(t.records, p);
    hide Resolve, ValidTracker;
  }

  ghost predicate Fresh(routes: map<string, RouteObservation>, ttl: int, now: int) {
    forall k :: k in routes ==> now - routes[k].lastSeenAt <= ttl
  }

  lemma CandidatesAreRoutes(routes: map<string, RouteObservation>, runId: Option<string>)
    ensures forall k :: k in SelectRouteCandidates(routes, runId) ==> k in routes && SelectRouteCandidates(routes, runId)[k] == routes[k]
  {
  }

  lemma DescribedRoute(record: Record, p: Observation, ttl: int, snapshot: Snapshot)
    requires Fresh(record.routes, ttl, p.now)
    requires var candidates := SelectRouteCandidates(record.routes, p.runId);
      if |candidates| == 1 then snapshot.resolution == ResolvedRoute && exists k :: k in candidates && snapshot.route == Some(candidates[k].route)
      else snapshot.resolution != ResolvedRoute
    ensures snapshot.resolution == ResolvedRoute <==> exists k :: OnlyFreshCandidate(record, p, ttl, k)
    ensures snapshot.resolution == ResolvedRoute ==> EmitsOnlyCandidate(record, p, ttl, snapshot)
  {
    var candidates := SelectRouteCandidates(record.routes, p.runId);
    CandidatesAreRoutes(record.routes, p.runId);
    hide SelectRouteCandidates;
    if |candidates| == 1 {
      var k :| k in candidates && snapshot.route == Some(candidates[k].route);
      SingletonOf(candidates.Keys, k);
      assert OnlyFreshCandidate(record, p, ttl, k);
      EmitsCompleted(snapshot, candidates[k].route);
      hide Completes, EmittedRoute;
    }
    forall k | OnlyFreshCandidate(record, p, ttl, k) ensures |candidates| == 1 {
      assert |candidates.Keys| == |{k}|;
    }
  }

  lemma EmitsCompleted(snapshot: Snapshot, route: Route)
    requires snapshot.resolution == ResolvedRoute && snapshot.route == Some(route)
    ensures Completes(EmittedRoute(snapshot), route, snapshot.parsed)
  {
  }

  /** A request that is ambiguous between live records, or matches none, emits no route field. */
  lemma NoRecordNoRoute(t: Tracker, p: Observation, ttl: int, snapshot: Snapshot)
    requires Describes(snapshot, QueryProvenance(t, p, ttl).records, Resolve(t.records, p).1, p)
    requires Refused(t.records, p) || Joined(t.records, p) == {}
    ensures EmittedRoute(snapshot) == EMPTY_ROUTE
  {
    hide Resolve;
    ResolveShape(t.records, p);
  }
}
