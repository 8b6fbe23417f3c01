/**
 * The session tracker's logical state: a map of live records, and the meaning of one
 * observation, query or ending on it. The imperative tracker in SessionTracker.dfy,
 * with its three inverted indexes, is proved to do exactly what is defined here.
 */
module SessionRecords {
  import opened Options
  import opened SessionKeys

  // ---------------------------------------------------------------- routes

  datatype Route = Route(
    provider: Option<string>, surface: Option<string>, accountId: Option<string>,
    channelId: Option<string>, conversationId: Option<string>, threadId: Option<string>,
    messageId: Option<string>, from: Option<string>, to: Option<string>,
    senderId: Option<string>, senderName: Option<string>)

  const EMPTY_ROUTE := Route(None, None, None, None, None, None, None, None, None, None, None)

  function RouteOrUndefined(route: Route): Option<Route> {
    if route == EMPTY_ROUTE then None else Some(route)
  }

  /** Field by field, the override's value if it has one, else the base's. */
  function MergeRouteMetadata(base: Option<Route>, override: Option<Route>): Option<Route> {
    var b := base.GetOr(EMPTY_ROUTE);
    var o := override.GetOr(EMPTY_ROUTE);
    RouteOrUndefined(Route(
      o.provider.OrElse(b.provider), o.surface.OrElse(b.surface), o.accountId.OrElse(b.accountId),
      o.channelId.OrElse(b.channelId), o.conversationId.OrElse(b.conversationId), o.threadId.OrElse(b.threadId),
      o.messageId.OrElse(b.messageId), o.from.OrElse(b.from), o.to.OrElse(b.to),
      o.senderId.OrElse(b.senderId), o.senderName.OrElse(b.senderName)))
  }

  function RouteFromParsedSession(parsed: Option<ParsedSessionKey>): Option<Route> {
    if parsed.None? then None
    else
      var p := parsed.value;
      RouteOrUndefined(EMPTY_ROUTE.(provider := p.provider, surface := p.surface,
                                    accountId := p.accountId, threadId := p.threadToken))
  }

  function RoutePart(name: string, value: Option<string>): seq<string> {
    if NonBlankOption(value) then [name + "=" + value.value] else []
  }

  function BuildRouteKey(route: Option<Route>): Option<string> {
    if route.None? then None
    else
      var r := route.value;
      var parts := RoutePart("provider", r.provider) + RoutePart("surface", r.surface)
                   + RoutePart("accountId", r.accountId) + RoutePart("channelId", r.channelId)
                   + RoutePart("conversationId", r.conversationId) + RoutePart("threadId", r.threadId);
      if parts == [] then None else Some(Join(parts, '|'))
  }

  datatype RouteObservation = RouteObservation(
    route: Route, firstSeenAt: int, lastSeenAt: int,
    lastInboundAt: Option<int>, lastOutboundAt: Option<int>, runIds: set<string>)

  function Min(a: int, b: int): int { if a < b then a else b }
  function Max(a: int, b: int): int { if a > b then a else b }

  /** Zero is falsy, so a maximum of zero turns back into undefined. */
  function LatestOf(a: Option<int>, b: Option<int>): Option<int> {
    var m := Max(a.GetOr(0), b.GetOr(0));
    if m == 0 then None else Some(m)
  }

  function CombineObservation(current: Option<RouteObservation>, other: RouteObservation): RouteObservation {
    var c := current.GetOr(other);
    var seen := if current.Some? then current.value.runIds else {};
    RouteObservation(
      MergeRouteMetadata(if current.Some? then Some(c.route) else None, Some(other.route)).GetOr(other.route),
      Min(c.firstSeenAt, other.firstSeenAt),
      Max(c.lastSeenAt, other.lastSeenAt),
      LatestOf(if current.Some? then c.lastInboundAt else None, other.lastInboundAt),
      LatestOf(if current.Some? then c.lastOutboundAt else None, other.lastOutboundAt),
      seen + other.runIds)
  }

  function Lookup<K, V>(m: map<K, V>, k: K): Option<V> {
    if k in m then Some(m[k]) else None
  }

  // ---------------------------------------------------------------- records

  type RecordId = nat

  datatype Record = Record(
    startTime: int, lastTouchedAt: int,
    agentId: Option<string>, parentAgentId: Option<string>,
    parentSessionId: Option<string>, parentSessionKey: Option<string>,
    sessionIds: set<string>, sessionKeys: set<string>, strongSessionKeys: set<string>,
    runIds: set<string>, routes: map<string, RouteObservation>)

  type Records = map<RecordId, Record>

  function NewRecord(now: int): Record {
    Record(now, now, None, None, None, None, {}, {}, {}, {}, map[])
  }

  /** An identifier, tagged with the index it is looked up in. */
  datatype Ident = Sid(value: string) | Key(value: string) | Run(value: string)

  predicate Strong(x: Ident) {
    x.Key? ==> IsStrongSessionKey(x.value)
  }

  predicate Holds(record: Record, x: Ident) {
    match x
    case Sid(s) => s in record.sessionIds
    case Key(k) => k in record.sessionKeys
    case Run(r) => r in record.runIds
  }

  ghost predicate WellFormed(record: Record) {
    && (forall k :: k in record.strongSessionKeys <==> k in record.sessionKeys && IsStrongSessionKey(k))
    && (record.sessionIds != {} || record.strongSessionKeys != {})
    && (forall x :: Holds(record, x) ==> NonBlank(x.value))
  }

  /** Every session id, run id and strong key belongs to at most one live record. */
  ghost predicate Separate(records: Records) {
    forall a, b, x :: a in records && b in records && Strong(x) && Holds(records[a], x) && Holds(records[b], x)
                      ==> a == b
  }

  ghost predicate Inv(records: Records) {
    && (forall r :: r in records ==> WellFormed(records[r]))
    && Separate(records)
  }

  // ---------------------------------------------------------------- observations

  datatype Direction = Inbound | Outbound | Internal | NoDirection

  datatype Observation = Observation(
    sessionId: Option<string>, sessionKey: Option<string>,
    aliasSessionIds: seq<string>, aliasSessionKeys: seq<string>,
    agentId: Option<string>, parentAgentId: Option<string>,
    parentSessionId: Option<string>, parentSessionKey: Option<string>,
    runId: Option<string>, route: Option<Route>, direction: Direction, now: int)

  /** A lookup by identifiers only, as the queries build it. */
  function Request(sessionId: Option<string>, sessionKey: Option<string>, aliasSessionIds: seq<string>,
                   aliasSessionKeys: seq<string>, runId: Option<string>): Observation
  {
    Observation(sessionId, sessionKey, aliasSessionIds, aliasSessionKeys,
                None, None, None, None, runId, None, NoDirection, 0)
  }

  /** The distinct non-blank values, each at its first position. */
  function Dedupe(values: seq<string>): (r: seq<string>)
    ensures forall v :: v in r <==> v in values && NonBlank(v)
    ensures forall i, j :: 0 <= i < j < |r| ==> r[i] != r[j]
  {
    if values == [] then []
    else
      var last := values[|values| - 1];
      var front := values[..|values| - 1];
      assert forall v :: v in values <==> v in front || v == last;
      var r := Dedupe(front);
      if NonBlank(last) && last !in r then r + [last] else r
  }

  function Filter(p: string -> bool, values: seq<string>): (r: seq<string>)
    ensures forall v :: v in r <==> v in values && p(v)
  {
    if values == [] then []
    else if p(values[0]) then [values[0]] + Filter(p, values[1..])
    else Filter(p, values[1..])
  }

  function SessionIds(p: Observation): seq<string> {
    Dedupe(ToSeq(p.sessionId) + p.aliasSessionIds)
  }

  function SessionKeysOf(p: Observation): seq<string> {
    Dedupe(ToSeq(p.sessionKey) + p.aliasSessionKeys + Filter(LooksLikeSessionKey, SessionIds(p)))
  }

  function StrongKeys(p: Observation): seq<string> {
    Filter(IsStrongSessionKey, SessionKeysOf(p))
  }

  predicate HasStrongIdentifiers(p: Observation) {
    || NonBlankOption(p.sessionId)
    || (p.sessionKey.Some? && IsStrongSessionKey(p.sessionKey.value))
    || (exists i :: 0 <= i < |p.aliasSessionIds| && NonBlank(p.aliasSessionIds[i]))
    || (exists i :: 0 <= i < |p.aliasSessionKeys| && IsStrongSessionKey(p.aliasSessionKeys[i]))
  }

  /** The three ways an identifier is looked up. */
  datatype Lane = ById | ByKey | ByRun

  function Tagged(lane: Lane, value: string): Ident {
    match lane
    case ById => Sid(value)
    case ByKey => Key(value)
    case ByRun => Run(value)
  }

  function Lift(values: seq<string>, lane: Lane): seq<Ident> {
    seq(|values|, i requires 0 <= i < |values| => Tagged(lane, values[i]))
  }

  function RunIds(p: Observation): seq<string> {
    if NonBlankOption(p.runId) then [p.runId.value] else []
  }

  /** The identifiers of a request that may link records, in the order they are looked up. */
  function StrongIdents(p: Observation): seq<Ident> {
    Lift(SessionIds(p), ById) + Lift(StrongKeys(p), ByKey) + Lift(RunIds(p), ByRun)
  }

  predicate Mentions(p: Observation, x: Ident) {
    match x
    case Sid(s) => s in SessionIds(p)
    case Key(k) => k in SessionKeysOf(p)
    case Run(r) => r in RunIds(p)
  }

  lemma LiftHas(values: seq<string>, lane: Lane, x: Ident)
    ensures x in Lift(values, lane) <==> x == Tagged(lane, x.value) && x.value in values
  {
    var xs := Lift(values, lane);
    if x.value in values && x == Tagged(lane, x.value) {
      var i :| 0 <= i < |values| && values[i] == x.value;
      assert xs[i] == x;
    }
  }

  lemma StrongIdentsAre(p: Observation, x: Ident)
    ensures x in StrongIdents(p) <==> Mentions(p, x) && Strong(x)
  {
    var sids, keys, runs := Lift(SessionIds(p), ById), Lift(StrongKeys(p), ByKey), Lift(RunIds(p), ByRun);
    assert x in StrongIdents(p) <==> x in sids || x in keys || x in runs;
    LiftHas(SessionIds(p), ById, x);
    LiftHas(StrongKeys(p), ByKey, x);
    LiftHas(RunIds(p), ByRun, x);
  }

  lemma MentionedIsNonBlank(p: Observation, x: Ident)
    requires Mentions(p, x)
    ensures NonBlank(x.value)
  {
  }

  lemma HasStrongIffMentioned(p: Observation)
    ensures HasStrongIdentifiers(p) <==> exists x :: Mentions(p, x) && Strong(x) && !x.Run?
  {
    var ids := ToSeq(p.sessionId) + p.aliasSessionIds;
    var keys := ToSeq(p.sessionKey) + p.aliasSessionKeys + Filter(LooksLikeSessionKey, SessionIds(p));
    if HasStrongIdentifiers(p) {
      if NonBlankOption(p.sessionId) {
        assert ids[0] == p.sessionId.value;
        assert Mentions(p, Sid(p.sessionId.value));
      } else if p.sessionKey.Some? && IsStrongSessionKey(p.sessionKey.value) {
        assert keys[0] == p.sessionKey.value;
        assert Mentions(p, Key(p.sessionKey.value));
      } else if i :| 0 <= i < |p.aliasSessionIds| && NonBlank(p.aliasSessionIds[i]) {
        assert Mentions(p, Sid(p.aliasSessionIds[i]));
      } else {
        var i :| 0 <= i < |p.aliasSessionKeys| && IsStrongSessionKey(p.aliasSessionKeys[i]);
        assert Mentions(p, Key(p.aliasSessionKeys[i]));
      }
    }
    if x :| Mentions(p, x) && Strong(x) && !x.Run? {
      if x.value in SessionIds(p) {
        assert x.value in ids;
      } else {
        assert x.value in keys;
      }
    }
  }

  /** A request all of whose keys are strong. */
  predicate NoSharedKey(p: Observation) {
    forall k :: k in SessionKeysOf(p) ==> IsStrongSessionKey(k)
  }

  // ---------------------------------------------------------------- matching

  ghost predicate Owned(records: Records, x: Ident) {
    exists r :: r in records && Holds(records[r], x)
  }

  ghost function OwnerOf(records: Records, x: Ident): (r: RecordId)
    requires Owned(records, x)
    ensures r in records && Holds(records[r], x)
  {
    var r :| r in records && Holds(records[r], x);
    r
  }

  /** The owners of the given identifiers, each at its first position. */
  ghost function StrongMatches(records: Records, xs: seq<Ident>): (ms: seq<RecordId>)
    ensures forall i :: 0 <= i < |ms| ==> ms[i] in records && exists x :: x in xs && Holds(records[ms[i]], x)
    ensures forall i, j :: 0 <= i < j < |ms| ==> ms[i] != ms[j]
  {
    if xs == [] then []
    else
      var front, x := xs[..|xs| - 1], xs[|xs| - 1];
      var ms := StrongMatches(records, front);
      assert forall y :: y in front ==> y in xs;
      if Owned(records, x) && OwnerOf(records, x) !in ms then ms + [OwnerOf(records, x)] else ms
  }

  lemma {:induction false} OwnersMatch(records: Records, xs: seq<Ident>, x: Ident, r: RecordId)
    requires Separate(records) && (forall y :: y in xs ==> Strong(y))
    requires x in xs && r in records && Holds(records[r], x)
    ensures r in StrongMatches(records, xs)
  {
    var front, last := xs[..|xs| - 1], xs[|xs| - 1];
    assert forall y :: y in front ==> y in xs;
    if x == last {
      assert OwnerOf(records, x) == r;
    } else {
      OwnersMatch(records, front, x, r);
    }
  }

  ghost function WeakMatches(records: Records, p: Observation): set<RecordId> {
    set r | r in records && exists k :: k in SessionKeysOf(p) && !IsStrongSessionKey(k) && k in records[r].sessionKeys
  }

  // ---------------------------------------------------------------- merging

  function MergeInto(primary: Record, record: Record): Record {
    primary.(
      sessionIds := primary.sessionIds + record.sessionIds,
      sessionKeys := primary.sessionKeys + record.sessionKeys,
      strongSessionKeys := primary.strongSessionKeys + record.strongSessionKeys,
      runIds := primary.runIds + record.runIds,
      routes := MergeRoutes(primary.routes, record.routes),
      agentId := primary.agentId.OrElse(record.agentId),
      parentAgentId := primary.parentAgentId.OrElse(record.parentAgentId),
      parentSessionId := primary.parentSessionId.OrElse(record.parentSessionId),
      parentSessionKey := primary.parentSessionKey.OrElse(record.parentSessionKey),
      lastTouchedAt := Max(primary.lastTouchedAt, record.lastTouchedAt))
  }

  function MergeRoutes(a: map<string, RouteObservation>, b: map<string, RouteObservation>)
    : map<string, RouteObservation>
  {
    map k | k in a.Keys + b.Keys :: if k in b then CombineObservation(Lookup(a, k), b[k]) else a[k]
  }

  function MergeRest(primary: Record, records: Records, rest: seq<RecordId>): Record
    requires forall i :: 0 <= i < |rest| ==> rest[i] in records
  {
    if rest == [] then primary
    else MergeInto(MergeRest(primary, records, rest[..|rest| - 1]), records[rest[|rest| - 1]])
  }

  function AsSet(ids: seq<RecordId>): set<RecordId> {
    set i | 0 <= i < |ids| :: ids[i]
  }

  /** All matches become the first one. */
  function MergeAll(records: Records, ms: seq<RecordId>): Records
    requires ms != [] && forall i :: 0 <= i < |ms| ==> ms[i] in records
  {
    (records - AsSet(ms[1..]))[ms[0] := MergeRest(records[ms[0]], records, ms[1..])]
  }

  datatype Resolution = Unresolved | Ambiguous(matches: set<RecordId>) | Resolved(id: RecordId)

  ghost function Resolve(records: Records, p: Observation): (Records, Resolution) {
    var ms := StrongMatches(records, StrongIdents(p));
    var weak := WeakMatches(records, p);
    if ms != [] then (MergeAll(records, ms), Resolved(ms[0]))
    else if |weak| > 1 then (records, Ambiguous(weak))
    else if r :| r in weak then (records, Resolved(r))
    else (records, Unresolved)
  }

  // ---------------------------------------------------------------- operations

  datatype Tracker = Tracker(records: Records, nextId: RecordId)

  function ObservedRoute(p: Observation): Option<Route> {
    MergeRouteMetadata(PickParsedRoute(SessionKeysOf(p)), p.route)
  }

  /** The route of the first thread-scoped key. */
  function PickParsedRoute(keys: seq<string>): Option<Route> {
    if keys == [] then None
    else
      var parsed := ParseSessionKey(keys[0]);
      if parsed.Some? && parsed.value.isThreadScoped then RouteFromParsedSession(parsed)
      else PickParsedRoute(keys[1..])
  }

  function ObserveRoute(routes: map<string, RouteObservation>, p: Observation): map<string, RouteObservation> {
    var observed := ObservedRoute(p);
    var key := BuildRouteKey(observed);
    if key.None? then routes
    else
      var current := Lookup(routes, key.value);
      var next := if current.Some? then current.value
                  else RouteObservation(observed.value, p.now, p.now, None, None, {});
      routes[key.value := RouteObservation(
        MergeRouteMetadata(Some(next.route), observed).GetOr(observed.value),
        next.firstSeenAt,
        p.now,
        if p.direction == Inbound then Some(p.now) else next.lastInboundAt,
        if p.direction == Outbound then Some(p.now) else next.lastOutboundAt,
        next.runIds + (set r | r in RunIds(p)))]
  }

  function Extend(record: Record, p: Observation): Record {
    record.(
      sessionIds := record.sessionIds + (set s | s in SessionIds(p)),
      sessionKeys := record.sessionKeys + (set k | k in SessionKeysOf(p)),
      strongSessionKeys := record.strongSessionKeys + (set k | k in StrongKeys(p)),
      runIds := record.runIds + (set r | r in RunIds(p)),
      lastTouchedAt := p.now,
      agentId := p.agentId.OrElse(record.agentId),
      parentAgentId := p.parentAgentId.OrElse(record.parentAgentId),
      parentSessionId := p.parentSessionId.OrElse(record.parentSessionId),
      parentSessionKey := p.parentSessionKey.OrElse(record.parentSessionKey),
      routes := ObserveRoute(record.routes, p))
  }

  /** An observation is considered only with a strong identifier or a known run id. */
  ghost predicate Considered(records: Records, p: Observation) {
    HasStrongIdentifiers(p) || (p.runId.Some? && p.runId.value != "" && Owned(records, Run(p.runId.value)))
  }

  ghost function Observe(t: Tracker, p: Observation): Tracker {
    if !Considered(t.records, p) then t
    else
      var (records, resolution) := Resolve(t.records, p);
      match resolution
      case Ambiguous(_) => t.(records := records)
      case Resolved(r) => if r in records then t.(records := records[r := Extend(records[r], p)]) else t
      case Unresolved => Tracker(records[t.nextId := Extend(NewRecord(p.now), p)], t.nextId + 1)
  }

  /** Ending looks the identifier up as a session id and as a session key, merges, then removes. */
  function LookupRequest(identifier: string): Observation {
    Request(Some(identifier), Some(identifier), [identifier], [identifier], None)
  }

  ghost function EndSession(t: Tracker, identifier: string): Tracker {
    var (records, resolution) := Resolve(t.records, LookupRequest(identifier));
    if resolution.Resolved? then t.(records := records - {resolution.id}) else t.(records := records)
  }

  function PruneRoutes(record: Record, ttl: int, now: int): Record {
    record.(routes := map k | k in record.routes && now - record.routes[k].lastSeenAt <= ttl :: record.routes[k])
  }

  ghost function PruneMatched(records: Records, which: set<RecordId>, ttl: int, now: int): Records {
    map r | r in records :: if r in which then PruneRoutes(records[r], ttl, now) else records[r]
  }

  /** A provenance query may merge records and always drops expired routes of what it matched. */
  ghost function QueryProvenance(t: Tracker, p: Observation, ttl: int): Tracker {
    var (records, resolution) := Resolve(t.records, p);
    match resolution
    case Unresolved => t.(records := records)
    case Ambiguous(ms) => t.(records := PruneMatched(records, ms, ttl, p.now))
    case Resolved(r) => t.(records := PruneMatched(records, {r}, ttl, p.now))
  }

  // ---------------------------------------------------------------- provenance snapshots

  datatype RouteResolution = ResolvedRoute | AmbiguousRoute | Unavailable

  /** The part of a provenance snapshot that decides which route fields may be emitted. */
  datatype Snapshot = Snapshot(record: Option<RecordId>, route: Option<Route>, parsed: Option<ParsedSessionKey>,
                               resolution: RouteResolution)

  function FirstNonBlank(values: seq<string>): Option<string> {
    if values == [] then None
    else if NonBlank(values[0]) then Some(values[0])
    else FirstNonBlank(values[1..])
  }

  function RequestedParsed(p: Observation): Option<ParsedSessionKey> {
    ParseOption(p.sessionKey).OrElse(ParseOption(FirstNonBlank(p.aliasSessionKeys)))
  }

  /** A requested key that says more than the agent and a scope. */
  predicate Specific(parsed: ParsedSessionKey) {
    || parsed.isThreadScoped
    || (parsed.provider.Some? && parsed.provider.value != "")
    || (parsed.surface.Some? && parsed.surface.value != "")
  }

  predicate ThreadScoped(key: string) {
    var parsed := ParseSessionKey(key);
    parsed.Some? && parsed.value.isThreadScoped
  }

  /** One of the thread-scoped keys if there are any, else one of the strong ones. */
  ghost predicate Preferred(record: Record, parsed: Option<ParsedSessionKey>) {
    if exists k :: k in record.sessionKeys && ThreadScoped(k) then
      exists k :: k in record.sessionKeys && ThreadScoped(k) && parsed == ParseSessionKey(k)
    else if record.strongSessionKeys != {} then
      exists k :: k in record.strongSessionKeys && parsed == ParseSessionKey(k)
    else parsed == None
  }

  ghost predicate SelectedParsed(record: Record, p: Observation, parsed: Option<ParsedSessionKey>) {
    var requested := RequestedParsed(p);
    if requested.Some? && Specific(requested.value) then parsed == requested
    else exists preferred :: Preferred(record, preferred) && parsed == preferred.OrElse(requested)
  }

  /** The observations that saw the run id if any did, else all of them. */
  function SelectRouteCandidates(routes: map<string, RouteObservation>, runId: Option<string>)
    : map<string, RouteObservation>
  {
    if NonBlankOption(runId) then
      var byRun := map k | k in routes && runId.value in routes[k].runIds :: routes[k];
      if byRun != map[] then byRun else routes
    else routes
  }

  /** What a snapshot says about the records after the query. */
  ghost predicate Describes(snapshot: Snapshot, records: Records, resolution: Resolution, p: Observation) {
    match resolution
    case Unresolved => snapshot == Snapshot(None, None, RequestedParsed(p), Unavailable)
    case Ambiguous(_) => snapshot == Snapshot(None, None, RequestedParsed(p), AmbiguousRoute)
    case Resolved(id) =>
      && id in records && snapshot.record == Some(id) && SelectedParsed(records[id], p, snapshot.parsed)
      && var candidates := SelectRouteCandidates(records[id].routes, p.runId);
      if |candidates| == 1 then
        && snapshot.resolution == ResolvedRoute
        && exists k :: k in candidates && snapshot.route == Some(candidates[k].route)
      else
        snapshot.route == None && snapshot.resolution == if |candidates| > 1 then AmbiguousRoute else Unavailable
  }
}
