/**
 * Which route a query is answered: the only unexpired one that its run has used, or else the only
 * unexpired one, of the record it resolves to; and what an observation followed by a query gives.
 */
module RouteAnswers {
  import opened Options
  import opened SessionKeys
  import opened SessionRecords
  import opened SessionRuns
  import opened Provenance
  import opened RouteHistory

  predicate Fresh1(e: RouteObservation, now: int, ttl: int) {
    now - e.lastSeenAt <= ttl
  }

  predicate UsedBy(e: RouteObservation, runId: Option<string>) {
    runId.Some? && NonBlank(runId.value) && runId.value in e.runIds
  }

  /** An unexpired route that the query's run has used, or any unexpired one if its run has used none. */
  predicate Eligible(routes: map<string, RouteObservation>, q: Observation, ttl: int, k: string) {
    && k in routes && Fresh1(routes[k], q.now, ttl)
    && (UsedBy(routes[k], q.runId) || forall l :: l in routes && Fresh1(routes[l], q.now, ttl) ==> !UsedBy(routes[l], q.runId))
  }

  ghost predicate OnlyEligible(routes: map<string, RouteObservation>, q: Observation, ttl: int, k: string) {
    Eligible(routes, q, ttl, k) && forall l :: Eligible(routes, q, ttl, l) ==> l == k
  }

  lemma CandidatesAreEligible(record: Record, q: Observation, ttl: int)
    ensures var kept := PruneRoutes(record, ttl, q.now).routes;
      var candidates := SelectRouteCandidates(kept, q.runId);
      && (forall k :: k in candidates <==> Eligible(record.routes, q, ttl, k))
      && (forall k :: k in candidates ==> candidates[k] == record.routes[k])
  {
    hide NonBlank;
    var kept := PruneRoutes(record, ttl, q.now).routes;
    if NonBlankOption(q.runId) {
      var byRun := map k | k in kept && q.runId.value in kept[k].runIds :: kept[k];
      assert forall k :: k in byRun <==> k in record.routes && Fresh1(record.routes[k], q.now, ttl) && UsedBy(record.routes[k], q.runId);
      if byRun != map[] {
        var k :| k in byRun;
        assert UsedBy(record.routes[k], q.runId);
      }
    }
  }

  lemma CountOfKeys(keys: set<string>)
    ensures |keys| == 1 <==> exists k :: keys == {k}
    ensures |keys| == 0 <==> keys == {}
  {
    if |keys| == 1 {
      var k :| k in keys;
      SingletonOf(keys, k);
    }
  }

  /** The answer to a query that resolves to a record, in terms of the record's routes as they were noted. */
  lemma QueryIsAnswered(t: Tracker, q: Observation, ttl: int, snapshot: Snapshot)
    requires ValidTracker(t) && Resolve(t.records, q).1.Resolved?
    requires Describes(snapshot, QueryProvenance(t, q, ttl).records, Resolve(t.records, q).1, q)
    ensures var id := Resolve(t.records, q).1.id;
      id in Resolve(t.records, q).0 && snapshot.record == Some(id)
      && Answers(snapshot, Resolve(t.records, q).0[id].routes, q, ttl)
  {
    ResolveShape(t.records, q);
    hide Resolve, ValidTracker, Joined, SelectedParsed, Fresh1, Eligible;
    var id := Resolve(t.records, q).1.id;
    var record := Resolve(t.records, q).0[id];
    CandidatesAreEligible(record, q, ttl);
    hide PruneRoutes, SelectRouteCandidates;
    CandidatesDecide(snapshot, SelectRouteCandidates(PruneRoutes(record, ttl, q.now).routes, q.runId), record.routes, q, ttl);
  }

  /** Exactly one eligible route is answered, several are ambiguous, none is unavailable. */
  ghost predicate Answers(snapshot: Snapshot, routes: map<string, RouteObservation>, q: Observation, ttl: int) {
    && (snapshot.resolution == ResolvedRoute <==> exists k :: OnlyEligible(routes, q, ttl, k))
    && (forall k :: OnlyEligible(routes, q, ttl, k) ==> snapshot.route == Some(routes[k].route))
    && (snapshot.resolution == Unavailable <==> forall k :: !Eligible(routes, q, ttl, k))
    && (snapshot.resolution != ResolvedRoute ==> snapshot.route == None)
  }

  lemma CandidatesDecide(snapshot: Snapshot, candidates: map<string, RouteObservation>, routes: map<string, RouteObservation>, q: Observation, ttl: int)
    requires forall k :: k in candidates <==> Eligible(routes, q, ttl, k)
    requires forall k :: k in candidates ==> k in routes && candidates[k] == routes[k]
    requires if |candidates| == 1 then
        snapshot.resolution == ResolvedRoute && exists k :: k in candidates && snapshot.route == Some(candidates[k].route)
      else snapshot.route == None && snapshot.resolution == if |candidates| > 1 then AmbiguousRoute else Unavailable
    ensures Answers(snapshot, routes, q, ttl)
  {
    hide Eligible;
    var keys := candidates.Keys;
    CountOfKeys(keys);
    forall k ensures OnlyEligible(routes, q, ttl, k) <==> keys == {k} { OneKey(candidates, routes, q, ttl, k); }
    assert forall k :: k in keys <==> Eligible(routes, q, ttl, k);
    assert |candidates| == |keys|;
    if |keys| == 0 {
      assert forall k :: !Eligible(routes, q, ttl, k);
    } else {
      var k :| k in keys;
      assert Eligible(routes, q, ttl, k);
    }
  }

  lemma OneKey(candidates: map<string, RouteObservation>, routes: map<string, RouteObservation>, q: Observation, ttl: int, k: string)
    requires forall l :: l in candidates <==> Eligible(routes, q, ttl, l)
    ensures OnlyEligible(routes, q, ttl, k) <==> candidates.Keys == {k}
  {
    hide Eligible;
    if candidates.Keys == {k} {
      assert k in candidates;
      forall l | Eligible(routes, q, ttl, l) ensures l == k {
        assert l in candidates.Keys;
      }
    }
    if OnlyEligible(routes, q, ttl, k) {
      assert forall l :: l in candidates.Keys <==> l == k;
    }
  }

  // ---------------------------------------------------------------- an observation and then a query

  /** The query mentions something strong that the observation mentioned, and nothing known of any other record. */
  ghost predicate AsksFor(t: Tracker, p: Observation, q: Observation) {
    && (exists x :: Mentions(q, x) && Strong(x) && Mentions(p, x))
    && (forall x, r :: Mentions(q, x) && Strong(x) && r in Observe(t, p).records && Holds(Observe(t, p).records[r], x) ==> r == Home(t, p))
  }

  lemma QueryFindsHome(t: Tracker, p: Observation, q: Observation)
    requires ValidTracker(t) && Accepted(t.records, p) && AsksFor(t, p, q)
    ensures Home(t, p) in Observe(t, p).records
    ensures Resolve(Observe(t, p).records, q) == (Observe(t, p).records, Resolved(Home(t, p)))
  {
    ObserveShape(t, p);
    ObserveKeepsInv(t, p);
    hide Resolve, Observe, Home, Accepted, Joined, Mentions, Holds, Inv, StrongIdents;
    var records, home := Observe(t, p).records, Home(t, p);
    var x :| Mentions(q, x) && Strong(x) && Mentions(p, x);
    assert Holds(records[home], x);
    KnownIsJoined(records, q, x, home);
    OnlyMatch(records, q, home);
  }

  lemma MatchIsMentioned(records: Records, q: Observation, i: nat) returns (x: Ident)
    requires i < |StrongMatches(records, StrongIdents(q))|
    ensures var r := StrongMatches(records, StrongIdents(q))[i]; r in records && Mentions(q, x) && Strong(x) && Holds(records[r], x)
  {
    var ms := StrongMatches(records, StrongIdents(q));
    assert ms[i] in records;
    x :| x in StrongIdents(q) && Holds(records[ms[i]], x);
    StrongIdentsAre(q, x);
  }

  lemma OnlyMatch(records: Records, q: Observation, home: RecordId)
    requires home in records && StrongMatches(records, StrongIdents(q)) != []
    requires forall x, r :: Mentions(q, x) && Strong(x) && r in records && Holds(records[r], x) ==> r == home
    ensures Resolve(records, q) == (records, Resolved(home))
  {
    var ms := StrongMatches(records, StrongIdents(q));
    hide Mentions, Holds, StrongIdents;
    forall i | 0 <= i < |ms| ensures ms[i] == home {
      var x := MatchIsMentioned(records, q, i);
    }
    DistinctSize(ms);
    assert AsSet(ms) == {home} by { assert ms[0] == home; }
    assert ms[1..] == [] && AsSet([]) == {};
    MergeOne(records, home);
    assert ms == [home];
  }

  lemma MergeOne(records: Records, home: RecordId)
    requires home in records
    ensures MergeAll(records, [home]) == records
  {
    assert [home][1..] == [];
    assert AsSet([]) == {} && records - {} == records;
  }

  /**
   * A query for an observed session within the time to live, on a record that knows no other
   * route, is answered the route that was observed, completed by what was known of it.
   */
  lemma ObservedRouteIsAnswered(t: Tracker, p: Observation, q: Observation, ttl: int, snapshot: Snapshot, r: Route)
    requires ValidTracker(t) && Accepted(t.records, p) && AsksFor(t, p, q) && Says(p, r) && Distinguished(r)
    requires q.now - p.now <= ttl
    requires BuildRouteKey(Some(r)).Some? && RoutesBefore(t, p).Keys <= {BuildRouteKey(Some(r)).value}
    requires var after := Observe(t, p);
      Describes(snapshot, QueryProvenance(after, q, ttl).records, Resolve(after.records, q).1, q)
    ensures snapshot.resolution == ResolvedRoute && snapshot.route.Some?
    ensures var key := BuildRouteKey(Some(r)).value;
      var was := if key in RoutesBefore(t, p) then Some(RoutesBefore(t, p)[key]) else None;
      forall f :: FieldOf(snapshot.route.value, f)
        == if FieldOf(r, f).Some? then FieldOf(r, f) else if was.Some? then FieldOf(was.value.route, f) else None
  {
    hide Resolve, Observe, Home, Accepted, Joined, AsksFor, Says, BuildRouteKey, Distinguished, FieldOf, ValidTracker, Answers, Describes;
    hide RoutesBefore, NotesRoute, QueryProvenance;
    var said := ObservationNotesRoute(t, p);
    SaysOne(p, r, said);
    QueryFindsHome(t, p, q);
    ObservedIsValid(t, p);
    QueryIsAnswered(Observe(t, p), q, ttl, snapshot);
    var routes, key := Observe(t, p).records[Home(t, p)].routes, BuildRouteKey(Some(r)).value;
    OnlyRouteNoted(RoutesBefore(t, p), routes, p, r, key);
    OneFreshRoute(snapshot, routes, q, ttl, key);
  }

  lemma ObservedIsValid(t: Tracker, p: Observation)
    requires ValidTracker(t)
    ensures ValidTracker(Observe(t, p))
  {
    ObserveKeepsInv(t, p);
  }

  lemma OnlyRouteNoted(before: map<string, RouteObservation>, after: map<string, RouteObservation>, p: Observation, r: Route, key: string)
    requires NotesRoute(before, after, p, r) && Distinguished(r) && BuildRouteKey(Some(r)) == Some(key) && before.Keys <= {key}
    ensures after.Keys == {key} && after[key].lastSeenAt == p.now
    ensures var was := if key in before then Some(before[key]) else None;
      forall f :: FieldOf(after[key].route, f)
        == if FieldOf(r, f).Some? then FieldOf(r, f) else if was.Some? then FieldOf(was.value.route, f) else None
  {
    hide Distinguished, BuildRouteKey, FieldOf, NonBlank;
  }

  lemma SaysOne(p: Observation, a: Route, b: Route)
    requires Says(p, a) && Says(p, b)
    ensures a == b
  {
    forall f ensures FieldOf(a, f) == FieldOf(b, f) {
      assert SaysField(p, f, FieldOf(a, f)) && SaysField(p, f, FieldOf(b, f));
    }
    hide FieldOf, Says;
    SameRoute(a, b);
  }

  lemma OneFreshRoute(snapshot: Snapshot, routes: map<string, RouteObservation>, q: Observation, ttl: int, key: string)
    requires Answers(snapshot, routes, q, ttl) && routes.Keys == {key} && q.now - routes[key].lastSeenAt <= ttl
    ensures snapshot.resolution == ResolvedRoute && snapshot.route == Some(routes[key].route)
  {
    hide NonBlank;
    assert key in routes && forall l :: l in routes ==> l == key;
    assert Eligible(routes, q, ttl, key);
    assert OnlyEligible(routes, q, ttl, key);
  }

  // ---------------------------------------------------------------- which session key is reported

  /** The key the query asks with: its own if that is not blank, else its first alias that is not. */
  ghost predicate AsksWith(q: Observation, key: string) {
    if NonBlankOption(q.sessionKey) then q.sessionKey == Some(key)
    else exists i: nat :: IsFirstNonBlank(q.aliasSessionKeys, i) && q.aliasSessionKeys[i] == key
  }

  ghost predicate IsFirstNonBlank(values: seq<string>, i: nat) {
    i < |values| && NonBlank(values[i]) && forall j :: 0 <= j < i ==> !NonBlank(values[j])
  }

  lemma {:induction false} FirstNonBlankIs(values: seq<string>)
    ensures FirstNonBlank(values).None? <==> forall i :: 0 <= i < |values| ==> !NonBlank(values[i])
    ensures forall i: nat :: IsFirstNonBlank(values, i) ==> FirstNonBlank(values) == Some(values[i])
    ensures FirstNonBlank(values).Some? ==> exists i: nat :: IsFirstNonBlank(values, i) && values[i] == FirstNonBlank(values).value
  {
    hide NonBlank;
    if values != [] && !NonBlank(values[0]) {
      FirstNonBlankIs(values[1..]);
      assert forall i :: 0 <= i < |values| - 1 ==> values[1..][i] == values[i + 1];
      forall i: nat | IsFirstNonBlank(values, i) ensures FirstNonBlank(values) == Some(values[i]) {
        assert i > 0 && values[1..][i - 1] == values[i];
        forall j | 0 <= j < i - 1 ensures !NonBlank(values[1..][j]) { assert values[1..][j] == values[j + 1]; }
        assert IsFirstNonBlank(values[1..], i - 1);
      }
      if FirstNonBlank(values).Some? {
        var i: nat :| IsFirstNonBlank(values[1..], i) && values[1..][i] == FirstNonBlank(values).value;
        assert values[i + 1] == FirstNonBlank(values).value && forall j :: 0 < j < i + 1 ==> values[j] == values[1..][j - 1];
        assert IsFirstNonBlank(values, i + 1);
      }
    } else if values != [] {
      assert IsFirstNonBlank(values, 0);
    }
  }

  lemma RequestedIs(q: Observation, key: string)
    requires AsksWith(q, key)
    ensures RequestedParsed(q).Some? && RequestedParsed(q) == ParseSessionKey(key)
  {
    FirstNonBlankIs(q.aliasSessionKeys);
    ParsedIffNonBlank();
    hide NonBlank, ParseSessionKey, FirstNonBlank;
    if !NonBlankOption(q.sessionKey) {
      var i: nat :| IsFirstNonBlank(q.aliasSessionKeys, i) && q.aliasSessionKeys[i] == key;
      assert FirstNonBlank(q.aliasSessionKeys) == Some(key);
    }
  }

  lemma ParsedIffNonBlank()
    ensures forall key :: ParseSessionKey(key).Some? <==> NonBlank(key)
  {
    hide NonBlank, Split;
  }

  /** The key says more than the agent and a scope. */
  predicate SaysWhere(parsed: ParsedSessionKey) {
    parsed.isThreadScoped || (parsed.provider != None && parsed.provider != Some("")) || (parsed.surface != None && parsed.surface != Some(""))
  }

  predicate IsThreadKey(key: string) {
    ParseSessionKey(key).Some? && ParseSessionKey(key).value.isThreadScoped
  }

  const BLANK_KEY := ParsedSessionKey("", None, None, None, None, None, None, None, false)

  /** The requested key if it says where; else a thread-scoped key of the record, else a strong one, else the requested one after all. */
  ghost predicate Reports(keys: set<string>, requested: ParsedSessionKey, parsed: Option<ParsedSessionKey>) {
    if SaysWhere(requested) then parsed == Some(requested)
    else if exists k :: k in keys && IsThreadKey(k) then exists k :: k in keys && IsThreadKey(k) && parsed == ParseSessionKey(k)
    else if exists k :: k in keys && IsStrongSessionKey(k) then exists k :: k in keys && IsStrongSessionKey(k) && parsed == ParseSessionKey(k)
    else parsed == Some(requested)
  }

  /** What a query reports of the record it resolves to: its session key, besides the route. */
  lemma ReportedKey(t: Tracker, q: Observation, ttl: int, snapshot: Snapshot, key: string)
    requires ValidTracker(t) && Resolve(t.records, q).1.Resolved? && AsksWith(q, key)
    requires Describes(snapshot, QueryProvenance(t, q, ttl).records, Resolve(t.records, q).1, q)
    ensures var id := Resolve(t.records, q).1.id;
      id in Resolve(t.records, q).0 && Reports(Resolve(t.records, q).0[id].sessionKeys, ParseSessionKey(key).GetOr(BLANK_KEY), snapshot.parsed)
  {
    hide Resolve, ParseSessionKey, RequestedParsed, NonBlank, AsksWith, SelectedParsed, Reports, QueryProvenance, Describes, PruneRoutes;
    RequestedIs(q, key);
    ParsedIffNonBlank();
    QueriedRecord(t, q, ttl, snapshot);
    PruneKeepsKeys();
    var record := Resolve(t.records, q).0[Resolve(t.records, q).1.id];
    SelectedKey(record, PruneRoutes(record, ttl, q.now), q, snapshot.parsed);
  }

  lemma PruneKeepsKeys()
    ensures forall record, ttl, now :: PruneRoutes(record, ttl, now).sessionKeys == record.sessionKeys
    ensures forall record, ttl, now :: PruneRoutes(record, ttl, now).strongSessionKeys == record.strongSessionKeys
  {
  }

  lemma QueriedRecord(t: Tracker, q: Observation, ttl: int, snapshot: Snapshot)
    requires ValidTracker(t) && Resolve(t.records, q).1.Resolved?
    requires Describes(snapshot, QueryProvenance(t, q, ttl).records, Resolve(t.records, q).1, q)
    ensures var id := Resolve(t.records, q).1.id;
      && id in Resolve(t.records, q).0 && WellFormed(Resolve(t.records, q).0[id])
      && SelectedParsed(PruneRoutes(Resolve(t.records, q).0[id], ttl, q.now), q, snapshot.parsed)
  {
    ResolveShape(t.records, q);
    ResolvedInv(t.records, q);
    hide Resolve, SelectedParsed, Joined, SelectRouteCandidates, PruneRoutes, WellFormed, Separate;
  }

  lemma SelectedKey(record: Record, pruned: Record, q: Observation, parsed: Option<ParsedSessionKey>)
    requires pruned.sessionKeys == record.sessionKeys && pruned.strongSessionKeys == record.strongSessionKeys && WellFormed(record)
    requires SelectedParsed(pruned, q, parsed) && RequestedParsed(q).Some?
    ensures Reports(record.sessionKeys, RequestedParsed(q).value, parsed)
  {
    ParsedIffNonBlank();
    hide ParseSessionKey, RequestedParsed, NonBlank, IsStrongSessionKey;
    assert forall k :: ThreadScoped(k) <==> IsThreadKey(k);
    var keys := record.sessionKeys;
    assert Specific(RequestedParsed(q).value) <==> SaysWhere(RequestedParsed(q).value);
    if !SaysWhere(RequestedParsed(q).value) {
      var preferred :| Preferred(pruned, preferred) && parsed == preferred.OrElse(RequestedParsed(q));
      forall k | k in keys ensures ParseSessionKey(k).Some? {
        assert Holds(record, Key(k));
      }
      PreferredIs(pruned, preferred);
    }
  }

  lemma PreferredIs(record: Record, preferred: Option<ParsedSessionKey>)
    requires Preferred(record, preferred)
    requires forall k :: k in record.strongSessionKeys <==> k in record.sessionKeys && IsStrongSessionKey(k)
    requires forall k :: k in record.sessionKeys ==> ParseSessionKey(k).Some?
    ensures if exists k :: k in record.sessionKeys && IsThreadKey(k) then
        preferred.Some? && exists k :: k in record.sessionKeys && IsThreadKey(k) && preferred == ParseSessionKey(k)
      else if exists k :: k in record.sessionKeys && IsStrongSessionKey(k) then
        preferred.Some? && exists k :: k in record.sessionKeys && IsStrongSessionKey(k) && preferred == ParseSessionKey(k)
      else preferred == None
  {
    assert forall k :: ThreadScoped(k) <==> IsThreadKey(k);
    hide ParseSessionKey, NonBlank, IsStrongSessionKey, IsThreadKey, ThreadScoped;
    if k :| k in record.strongSessionKeys {
      assert k in record.sessionKeys && IsStrongSessionKey(k);
    }
  }
}
