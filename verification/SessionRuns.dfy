/**
 * Whole-run properties of the session tracker: what merging conserves, what every
 * operation keeps, and which identifiers end up in one record.
 */
module SessionRuns {
  import opened Options
  import opened SessionKeys
  import opened SessionRecords

  // ---------------------------------------------------------------- merging conserves

  lemma MergeIntoHolds(a: Record, b: Record)
    ensures forall x :: Holds(MergeInto(a, b), x) <==> Holds(a, x) || Holds(b, x)
    ensures forall k :: k in MergeInto(a, b).routes <==> k in a.routes || k in b.routes
    ensures forall k :: k in MergeInto(a, b).strongSessionKeys <==> k in a.strongSessionKeys || k in b.strongSessionKeys
  {
  }

  ghost predicate AnyHolds(records: Records, rest: seq<RecordId>, x: Ident) {
    exists i :: 0 <= i < |rest| && rest[i] in records && Holds(records[rest[i]], x)
  }

  ghost predicate AnyStrongKey(records: Records, rest: seq<RecordId>, k: string) {
    exists i :: 0 <= i < |rest| && rest[i] in records && k in records[rest[i]].strongSessionKeys
  }

  ghost predicate AnyRoute(records: Records, rest: seq<RecordId>, k: string) {
    exists i :: 0 <= i < |rest| && rest[i] in records && k in records[rest[i]].routes
  }

  lemma AnySplits(records: Records, front: seq<RecordId>, last: RecordId)
    requires last in records
    ensures forall x :: AnyHolds(records, front + [last], x) <==> AnyHolds(records, front, x) || Holds(records[last], x)
    ensures forall k :: AnyStrongKey(records, front + [last], k) <==>
      AnyStrongKey(records, front, k) || k in records[last].strongSessionKeys
    ensures forall k :: AnyRoute(records, front + [last], k) <==> AnyRoute(records, front, k) || k in records[last].routes
  {
    var all := front + [last];
    assert all[|front|] == last && forall i :: 0 <= i < |front| ==> all[i] == front[i];
  }

  /** Folding records into one collects what any of them holds. */
  lemma {:induction false} MergeRestHolds(primary: Record, records: Records, rest: seq<RecordId>)
    requires forall i :: 0 <= i < |rest| ==> rest[i] in records
    ensures var m := MergeRest(primary, records, rest);
      && (forall x :: Holds(m, x) <==> Holds(primary, x) || AnyHolds(records, rest, x))
      && (forall k :: k in m.strongSessionKeys <==> k in primary.strongSessionKeys || AnyStrongKey(records, rest, k))
      && (forall k :: k in m.routes <==> k in primary.routes || AnyRoute(records, rest, k))
  {
    if rest != [] {
      hide Holds, AnyHolds, AnyStrongKey, AnyRoute;
      var front, last := rest[..|rest| - 1], rest[|rest| - 1];
      MergeRestHolds(primary, records, front);
      assert rest == front + [last];
      AnySplits(records, front, last);
      MergeIntoHolds(MergeRest(primary, records, front), records[last]);
    }
  }

  lemma {:induction false} DistinctSize(ids: seq<RecordId>)
    requires forall i, j :: 0 <= i < j < |ids| ==> ids[i] != ids[j]
    ensures |AsSet(ids)| == |ids|
  {
    if ids != [] {
      var front, n := ids[..|ids| - 1], |ids| - 1;
      DistinctSize(front);
      assert AsSet(ids) == AsSet(front) + {ids[n]} by {
        assert forall i :: 0 <= i < n ==> ids[i] == front[i];
      }
      assert ids[n] !in AsSet(front);
    }
  }

  ghost predicate RouteKnown(records: Records, routeKey: string) {
    exists r :: r in records && routeKey in records[r].routes
  }

  /** The merged record holds exactly what the matches held. */
  lemma MergedHolds(records: Records, ms: seq<RecordId>)
    requires ms != [] && forall i :: 0 <= i < |ms| ==> ms[i] in records
    ensures var m := MergeAll(records, ms)[ms[0]];
      && (forall x :: Holds(m, x) <==> AnyHolds(records, ms, x))
      && (forall k :: k in m.strongSessionKeys <==> AnyStrongKey(records, ms, k))
      && (forall k :: k in m.routes <==> AnyRoute(records, ms, k))
  {
    hide Holds;
    var rest := ms[1..];
    MergeRestHolds(records[ms[0]], records, rest);
    assert forall i :: 0 <= i < |rest| ==> rest[i] == ms[i + 1];
    assert forall i :: 0 < i < |ms| ==> ms[i] == rest[i - 1];
  }

  // ---------------------------------------------------------------- gathering

  ghost predicate HeldIn(records: Records, which: set<RecordId>, x: Ident) {
    exists r :: r in which && r in records && Holds(records[r], x)
  }

  ghost predicate StrongKeyIn(records: Records, which: set<RecordId>, k: string) {
    exists r :: r in which && r in records && k in records[r].strongSessionKeys
  }

  /** The joined records, and new identifiers, become one record; every other record stays as it was. */
  ghost predicate Gathered(before: Records, joined: set<RecordId>, added: iset<Ident>, home: RecordId, after: Records) {
    && joined <= before.Keys
    && home in after && after.Keys == before.Keys - joined + {home}
    && (forall r :: r in after && r != home ==> after[r] == before[r])
    && (forall x :: Holds(after[home], x) <==> x in added || HeldIn(before, joined, x))
    && (forall k :: k in after[home].strongSessionKeys <==>
          (Key(k) in added && IsStrongSessionKey(k)) || StrongKeyIn(before, joined, k))
  }

  lemma MergeGathers(records: Records, ms: seq<RecordId>)
    requires ms != [] && forall i :: 0 <= i < |ms| ==> ms[i] in records
    requires forall i, j :: 0 <= i < j < |ms| ==> ms[i] != ms[j]
    ensures Gathered(records, AsSet(ms), iset{}, ms[0], MergeAll(records, ms))
  {
    var rest, after := ms[1..], MergeAll(records, ms);
    MergedHolds(records, ms);
    assert AsSet(ms) == AsSet(rest) + {ms[0]} by {
      assert forall i :: 0 < i < |ms| ==> ms[i] == rest[i - 1];
      assert forall i :: 0 <= i < |rest| ==> rest[i] == ms[i + 1];
    }
    assert forall i :: 0 <= i < |ms| ==> ms[i] in AsSet(ms);
  }

  lemma GatheredKeepsOwned(before: Records, joined: set<RecordId>, home: RecordId, after: Records, x: Ident)
    requires Gathered(before, joined, iset{}, home, after) && home in joined
    ensures Owned(after, x) <==> Owned(before, x)
  {
    if Owned(before, x) {
      var r :| r in before && Holds(before[r], x);
      if r in joined {
        assert HeldIn(before, joined, x);
        assert Holds(after[home], x);
      } else {
        assert r == home || Holds(after[r], x);
      }
    }
  }

  /** Merging k matches keeps every identifier and route key and removes exactly k - 1 records. */
  lemma MergeConserves(records: Records, ms: seq<RecordId>)
    requires ms != [] && forall i :: 0 <= i < |ms| ==> ms[i] in records
    requires forall i, j :: 0 <= i < j < |ms| ==> ms[i] != ms[j]
    ensures var after := MergeAll(records, ms);
      && (forall x :: Owned(after, x) <==> Owned(records, x))
      && (forall k :: RouteKnown(after, k) <==> RouteKnown(records, k))
      && |after| == |records| - (|ms| - 1)
      && (forall r :: r in records && r !in ms ==> r in after && after[r] == records[r])
  {
    var after, home := MergeAll(records, ms), ms[0];
    MergeGathers(records, ms);
    MergedHolds(records, ms);
    forall r ensures r in ms <==> r in AsSet(ms) { InAsSet(ms, r); }
    forall k ensures RouteKnown(after, k) <==> RouteKnown(records, k) { GatheredKeepsRoute(records, ms, after, k); }
    GatheredSize(records, AsSet(ms), home, after);
    DistinctSize(ms);
    hide MergeAll, AsSet, Owned, RouteKnown, Holds, AnyHolds, AnyRoute, AnyStrongKey;
    forall x ensures Owned(after, x) <==> Owned(records, x) {
      GatheredKeepsOwned(records, AsSet(ms), home, after, x);
    }
    hide HeldIn, StrongKeyIn;
  }

  lemma GatheredKeepsRoute(records: Records, ms: seq<RecordId>, after: Records, k: string)
    requires ms != [] && (forall i :: 0 <= i < |ms| ==> ms[i] in records) && Gathered(records, AsSet(ms), iset{}, ms[0], after)
    requires k in after[ms[0]].routes <==> AnyRoute(records, ms, k)
    ensures RouteKnown(after, k) <==> RouteKnown(records, k)
  {
    hide Holds, HeldIn, StrongKeyIn;
    if AnyRoute(records, ms, k) {
      assert k in after[ms[0]].routes;
    } else if RouteKnown(records, k) {
      var r :| r in records && k in records[r].routes;
      InAsSet(ms, r);
      assert r !in ms;
      assert k in after[r].routes;
    }
  }

  lemma InAsSet(ms: seq<RecordId>, r: RecordId)
    ensures r in ms <==> r in AsSet(ms)
  {
    if r in ms {
      var i :| 0 <= i < |ms| && ms[i] == r;
    }
  }

  lemma GatheredSize(before: Records, joined: set<RecordId>, home: RecordId, after: Records)
    requires Gathered(before, joined, iset{}, home, after) && home in joined
    ensures |after| == |before| - (|joined| - 1) && home in after
    ensures forall r :: r in before && r !in joined ==> r in after && after[r] == before[r]
    ensures forall r :: r in after && r != home ==> r in before && r !in joined && after[r] == before[r]
  {
    assert |before.Keys - joined| == |before.Keys| - |joined|;
    assert home !in before.Keys - joined;
  }

  lemma GatheredKeepsInv(before: Records, joined: set<RecordId>, added: iset<Ident>, home: RecordId, after: Records)
    requires Inv(before) && Gathered(before, joined, added, home, after)
    requires forall x :: x in added ==> NonBlank(x.value)
    requires joined != {} || exists x :: x in added && Strong(x) && !x.Run?
    requires forall x, r :: x in added && Strong(x) && r in before && Holds(before[r], x) ==> r in joined
    ensures Inv(after)
  {
    assert WellFormed(after[home]) by {
      if joined != {} {
        var r :| r in joined;
        assert WellFormed(before[r]);
        if s :| s in before[r].sessionIds {
          assert Holds(before[r], Sid(s));
          assert Holds(after[home], Sid(s));
        } else {
          var k :| k in before[r].strongSessionKeys;
          assert StrongKeyIn(before, joined, k);
        }
      } else {
        var x :| x in added && Strong(x) && !x.Run?;
        assert Holds(after[home], x);
      }
      forall k ensures k in after[home].strongSessionKeys <==> k in after[home].sessionKeys && IsStrongSessionKey(k) {
        assert k in after[home].sessionKeys <==> Holds(after[home], Key(k));
        if StrongKeyIn(before, joined, k) {
          var r :| r in joined && r in before && k in before[r].strongSessionKeys;
          assert WellFormed(before[r]);
          assert Holds(before[r], Key(k));
        }
        if HeldIn(before, joined, Key(k)) {
          var r :| r in joined && r in before && Holds(before[r], Key(k));
          assert WellFormed(before[r]);
        }
      }
    }
    forall a, b, x | a in after && b in after && Strong(x) && Holds(after[a], x) && Holds(after[b], x)
      ensures a == b
    {
      if HeldIn(before, joined, x) {
        var r :| r in joined && r in before && Holds(before[r], x);
        assert a != home ==> a == r;
        assert b != home ==> b == r;
      }
    }
  }

  // ---------------------------------------------------------------- one resolution, one observation

  /** The records a request brings together: its strong matches, or its only weak match. */
  ghost function Joined(records: Records, p: Observation): (joined: set<RecordId>)
    ensures joined <= records.Keys
  {
    var ms := StrongMatches(records, StrongIdents(p));
    if ms != [] then AsSet(ms) else if |WeakMatches(records, p)| == 1 then WeakMatches(records, p) else {}
  }

  ghost predicate Refused(records: Records, p: Observation) {
    StrongMatches(records, StrongIdents(p)) == [] && |WeakMatches(records, p)| > 1
  }

  ghost function Mentioned(p: Observation): iset<Ident> {
    iset x | Mentions(p, x)
  }

  ghost predicate ValidTracker(t: Tracker) {
    Inv(t.records) && forall r :: r in t.records ==> r < t.nextId
  }

  lemma SingletonOf<T>(s: set<T>, x: T)
    requires |s| == 1 && x in s
    ensures s == {x}
  {
    assert |s - {x}| == 0;
    assert s == {x} + (s - {x});
  }

  /** Resolving either finds nothing to join, or joins everything it matched into one record. */
  lemma ResolveShape(records: Records, p: Observation)
    ensures var after, resolution := Resolve(records, p).0, Resolve(records, p).1;
      if resolution.Resolved? then
        && resolution.id in Joined(records, p)
        && Gathered(records, Joined(records, p), iset{}, resolution.id, after)
      else
        && after == records && Joined(records, p) == {} && StrongMatches(records, StrongIdents(p)) == []
        && (resolution.Ambiguous? <==> Refused(records, p))
  {
    var ms, weak := StrongMatches(records, StrongIdents(p)), WeakMatches(records, p);
    if ms != [] {
      MergeGathers(records, ms);
      assert ms[0] in AsSet(ms);
      assert Resolve(records, p) == (MergeAll(records, ms), Resolved(ms[0]));
    } else if |weak| > 1 {
      assert Resolve(records, p) == (records, Ambiguous(weak));
    } else if r :| r in weak {
      WeakGathers(records, weak, r);
      assert Resolve(records, p) == (records, Resolved(r));
    } else {
      assert Resolve(records, p) == (records, Unresolved);
    }
  }

  lemma WeakGathers(records: Records, weak: set<RecordId>, r: RecordId)
    requires weak <= records.Keys && r in weak && |weak| == 1
    ensures weak == {r} && Gathered(records, weak, iset{}, r, records)
  {
    SingletonOf(weak, r);
  }

  /** A strong identifier of the request that is already known is in a joined record. */
  lemma KnownIsJoined(records: Records, p: Observation, x: Ident, r: RecordId)
    requires Inv(records) && Mentions(p, x) && Strong(x) && r in records && Holds(records[r], x)
    ensures StrongMatches(records, StrongIdents(p)) != [] && r in Joined(records, p)
  {
    var xs := StrongIdents(p);
    StrongIdentsAre(p, x);
    forall y | y in xs ensures Strong(y) { StrongIdentsAre(p, y); }
    OwnersMatch(records, xs, x, r);
  }

  lemma ExtendHolds(record: Record, p: Observation)
    ensures forall x :: Holds(Extend(record, p), x) <==> Holds(record, x) || x in Mentioned(p)
    ensures forall k :: k in Extend(record, p).strongSessionKeys <==>
      k in record.strongSessionKeys || (Key(k) in Mentioned(p) && IsStrongSessionKey(k))
  {
  }

  lemma ConsideredWithoutMatch(records: Records, p: Observation)
    requires Inv(records) && Considered(records, p) && StrongMatches(records, StrongIdents(p)) == []
    ensures HasStrongIdentifiers(p)
  {
    if !HasStrongIdentifiers(p) {
      var x := Run(p.runId.value);
      var r :| r in records && Holds(records[r], x);
      assert WellFormed(records[r]);
      KnownIsJoined(records, p, x, r);
    }
  }

  ghost predicate Accepted(records: Records, p: Observation) {
    Considered(records, p) && !Refused(records, p)
  }

  /** Where an accepted observation is recorded. */
  ghost function Home(t: Tracker, p: Observation): RecordId {
    var resolution := Resolve(t.records, p).1;
    if resolution.Resolved? then resolution.id else t.nextId
  }

  lemma ExtendGathers(before: Records, joined: set<RecordId>, home: RecordId, after: Records, p: Observation)
    requires Gathered(before, joined, iset{}, home, after)
    ensures Gathered(before, joined, Mentioned(p), home, after[home := Extend(after[home], p)])
  {
    ExtendHolds(after[home], p);
  }

  lemma CreateGathers(before: Records, home: RecordId, p: Observation)
    requires home !in before
    ensures Gathered(before, {}, Mentioned(p), home, before[home := Extend(NewRecord(p.now), p)])
  {
    ExtendHolds(NewRecord(p.now), p);
  }

  /** What one observation does to the records. */
  lemma ObserveShape(t: Tracker, p: Observation)
    requires ValidTracker(t)
    ensures !Accepted(t.records, p) ==> Observe(t, p) == t
    ensures Accepted(t.records, p) ==>
      && Gathered(t.records, Joined(t.records, p), Mentioned(p), Home(t, p), Observe(t, p).records)
      && Observe(t, p).nextId == (if Joined(t.records, p) == {} then t.nextId + 1 else t.nextId)
      && (if Joined(t.records, p) == {} then Home(t, p) == t.nextId else Home(t, p) in Joined(t.records, p))
  {
    ResolveShape(t.records, p);
    var after, resolution := Resolve(t.records, p).0, Resolve(t.records, p).1;
    if Considered(t.records, p) {
      match resolution
      case Resolved(r) =>
        ExtendGathers(t.records, Joined(t.records, p), r, after, p);
        assert Observe(t, p) == t.(records := after[r := Extend(after[r], p)]);
      case Ambiguous(_) =>
        assert Observe(t, p) == t.(records := after);
      case Unresolved =>
        CreateGathers(t.records, t.nextId, p);
        assert Observe(t, p) == Tracker(after[t.nextId := Extend(NewRecord(p.now), p)], t.nextId + 1);
    }
  }

  /** Resolving k strong matches loses no identifier and no route key, and drops k - 1 records. */
  lemma ResolveConserves(records: Records, p: Observation)
    ensures var after, k := Resolve(records, p).0, |StrongMatches(records, StrongIdents(p))|;
      && (forall x :: Owned(after, x) <==> Owned(records, x))
      && (forall route :: RouteKnown(after, route) <==> RouteKnown(records, route))
      && |after| == |records| - (if k > 1 then k - 1 else 0)
  {
    hide StrongIdents, WeakMatches;
    var ms := StrongMatches(records, StrongIdents(p));
    if ms != [] {
      assert Resolve(records, p).0 == MergeAll(records, ms);
      MergeConserves(records, ms);
    } else {
      assert Resolve(records, p).0 == records;
    }
  }

  /** Ending removes the resolved record with all its strong identifiers, and nothing else. */
  lemma EndForgetsExactlyOneRecord(t: Tracker, identifier: string)
    requires ValidTracker(t)
    ensures var (merged, resolution) := Resolve(t.records, LookupRequest(identifier));
      var after := EndSession(t, identifier).records;
      if resolution.Resolved? then
        && resolution.id in merged && |after| == |merged| - 1
        && (forall x :: Strong(x) ==> (Owned(after, x) <==> Owned(merged, x) && !Holds(merged[resolution.id], x)))
      else after == t.records
  {
    var p := LookupRequest(identifier);
    hide Resolve, LookupRequest;
    ResolveShape(t.records, p);
    ResolvedInv(t.records, p);
    if Resolve(t.records, p).1.Resolved? {
      EndForgets(t, identifier);
    }
  }

  lemma EndForgets(t: Tracker, identifier: string)
    requires ValidTracker(t) && Resolve(t.records, LookupRequest(identifier)).1.Resolved?
    ensures var (merged, resolution) := Resolve(t.records, LookupRequest(identifier));
      var after := EndSession(t, identifier).records;
      && resolution.id in merged && |after| == |merged| - 1
      && (forall x :: Strong(x) ==> (Owned(after, x) <==> Owned(merged, x) && !Holds(merged[resolution.id], x)))
  {
    var p := LookupRequest(identifier);
    hide Resolve, LookupRequest;
    ResolveShape(t.records, p);
    ResolvedInv(t.records, p);
    var merged, id := Resolve(t.records, p).0, Resolve(t.records, p).1.id;
    var after := EndSession(t, identifier).records;
    assert after == merged - {id} && after.Keys == merged.Keys - {id};
    forall x | Strong(x) ensures Owned(after, x) <==> Owned(merged, x) && !Holds(merged[id], x) {
      if Owned(merged, x) && !Holds(merged[id], x) {
        var r :| r in merged && Holds(merged[r], x);
        assert r in after;
      }
    }
  }

  // ---------------------------------------------------------------- every operation keeps the invariant

  lemma ResolvedInv(records: Records, p: Observation)
    requires Inv(records)
    ensures Inv(Resolve(records, p).0) && Resolve(records, p).0.Keys <= records.Keys
  {
    ResolveShape(records, p);
    var after, resolution := Resolve(records, p).0, Resolve(records, p).1;
    if resolution.Resolved? {
      GatheredKeepsInv(records, Joined(records, p), iset{}, resolution.id, after);
    }
  }

  lemma ResolveKeepsInv(t: Tracker, p: Observation)
    requires ValidTracker(t)
    ensures ValidTracker(t.(records := Resolve(t.records, p).0))
  {
    ResolvedInv(t.records, p);
  }

  lemma ObserveKeepsInv(t: Tracker, p: Observation)
    requires ValidTracker(t)
    ensures ValidTracker(Observe(t, p))
  {
    hide Resolve, StrongMatches, WeakMatches, StrongIdents, Joined, Mentions, Observe;
    ObserveShape(t, p);
    if Accepted(t.records, p) {
      var joined, added := Joined(t.records, p), Mentioned(p);
      forall x | x in added ensures NonBlank(x.value) { MentionedIsNonBlank(p, x); }
      if joined == {} {
        ResolveShape(t.records, p);
        ConsideredWithoutMatch(t.records, p);
        HasStrongIffMentioned(p);
      }
      forall x, r | x in added && Strong(x) && r in t.records && Holds(t.records[r], x) ensures r in joined {
        KnownIsJoined(t.records, p, x, r);
      }
      GatheredKeepsInv(t.records, joined, added, Home(t, p), Observe(t, p).records);
    }
  }

  datatype Step =
    | Observed(p: Observation)
    | Queried(q: Observation, ttl: int)
    | LookedUp(identifier: string)
    | Ended(identifier: string)
    | Cleared

  ghost function Apply(t: Tracker, step: Step): Tracker {
    match step
    case Observed(p) => Observe(t, p)
    case Queried(q, ttl) => QueryProvenance(t, q, ttl)
    case LookedUp(identifier) => t.(records := Resolve(t.records, LookupRequest(identifier)).0)
    case Ended(identifier) => EndSession(t, identifier)
    case Cleared => t.(records := map[])
  }

  const EMPTY := Tracker(map[], 0)

  ghost function After(steps: seq<Step>): Tracker {
    if steps == [] then EMPTY else Apply(After(steps[..|steps| - 1]), steps[|steps| - 1])
  }

  lemma PruneKeepsInv(records: Records, which: set<RecordId>, ttl: int, now: int)
    requires Inv(records)
    ensures Inv(PruneMatched(records, which, ttl, now))
  {
    var pruned := PruneMatched(records, which, ttl, now);
    assert forall r :: r in pruned ==> WellFormed(records[r]);
    assert forall r, x :: r in pruned ==> (Holds(pruned[r], x) <==> Holds(records[r], x));
  }

  lemma QueryKeepsInv(t: Tracker, q: Observation, ttl: int)
    requires ValidTracker(t)
    ensures ValidTracker(QueryProvenance(t, q, ttl))
  {
    ResolveKeepsInv(t, q);
    var after, resolution := Resolve(t.records, q).0, Resolve(t.records, q).1;
    match resolution
    case Unresolved =>
    case Ambiguous(ms) => PruneKeepsInv(after, ms, ttl, q.now);
    case Resolved(r) => PruneKeepsInv(after, {r}, ttl, q.now);
  }

  lemma StepKeepsInv(t: Tracker, step: Step)
    requires ValidTracker(t)
    ensures ValidTracker(Apply(t, step))
  {
    hide Observe, QueryProvenance, Resolve, LookupRequest, EndSession;
    match step
    case Observed(p) => ObserveKeepsInv(t, p);
    case Queried(q, ttl) => QueryKeepsInv(t, q, ttl);
    case LookedUp(identifier) => ResolveKeepsInv(t, LookupRequest(identifier));
    case Ended(identifier) => EndKeepsInv(t, identifier);
    case Cleared =>
  }

  lemma EndKeepsInv(t: Tracker, identifier: string)
    requires ValidTracker(t)
    ensures ValidTracker(EndSession(t, identifier))
  {
    hide Resolve, LookupRequest, WellFormed;
    ResolveKeepsInv(t, LookupRequest(identifier));
  }

  /** In every reachable state no strong identifier belongs to two records and every record has one. */
  lemma {:induction false} ReachableInv(steps: seq<Step>)
    ensures ValidTracker(After(steps))
  {
    if steps != [] {
      ReachableInv(steps[..|steps| - 1]);
      StepKeepsInv(After(steps[..|steps| - 1]), steps[|steps| - 1]);
    }
  }

  // ---------------------------------------------------------------- connected components

  /** Two identifiers occur together in one link. */
  ghost predicate Together(links: seq<set<Ident>>, a: Ident, b: Ident) {
    exists k :: 0 <= k < |links| && a in links[k] && b in links[k]
  }

  ghost predicate IsPath(links: seq<set<Ident>>, path: seq<Ident>) {
    forall i :: 0 <= i < |path| - 1 ==> Together(links, path[i], path[i + 1])
  }

  /** Reachability in the graph whose edges join the identifiers of one link. */
  ghost predicate Connected(links: seq<set<Ident>>, a: Ident, b: Ident) {
    exists path :: |path| >= 2 && path[0] == a && path[|path| - 1] == b && IsPath(links, path)
  }

  lemma TogetherConnects(links: seq<set<Ident>>, a: Ident, b: Ident)
    requires Together(links, a, b)
    ensures Connected(links, a, b)
  {
    var path := [a, b];
    assert path[0] == a && path[|path| - 1] == b && IsPath(links, path);
  }

  lemma ConnectedTransitive(links: seq<set<Ident>>, a: Ident, b: Ident, c: Ident)
    requires Connected(links, a, b) && Connected(links, b, c)
    ensures Connected(links, a, c)
  {
    var left :| |left| >= 2 && left[0] == a && left[|left| - 1] == b && IsPath(links, left);
    var right :| |right| >= 2 && right[0] == b && right[|right| - 1] == c && IsPath(links, right);
    var path := left + right[1..];
    forall i | 0 <= i < |path| - 1 ensures Together(links, path[i], path[i + 1]) {
      if i < |left| - 1 {
        assert path[i] == left[i] && path[i + 1] == left[i + 1];
      } else {
        var j := i - |left| + 1;
        assert path[i] == right[j] && path[i + 1] == right[j + 1];
      }
    }
    assert path[0] == a && path[|path| - 1] == c;
  }

  lemma ConnectedSymmetric(links: seq<set<Ident>>, a: Ident, b: Ident)
    requires Connected(links, a, b)
    ensures Connected(links, b, a)
  {
    var path :| |path| >= 2 && path[0] == a && path[|path| - 1] == b && IsPath(links, path);
    var back := seq(|path|, i requires 0 <= i < |path| => path[|path| - 1 - i]);
    forall i | 0 <= i < |back| - 1 ensures Together(links, back[i], back[i + 1]) {
      var j := |path| - 2 - i;
      assert Together(links, path[j], path[j + 1]);
    }
    assert back[0] == b && back[|back| - 1] == a;
  }

  lemma ConnectedMonotone(links: seq<set<Ident>>, more: set<Ident>, a: Ident, b: Ident)
    requires Connected(links, a, b)
    ensures Connected(links + [more], a, b)
  {
    var path :| |path| >= 2 && path[0] == a && path[|path| - 1] == b && IsPath(links, path);
    forall i | 0 <= i < |path| - 1 ensures Together(links + [more], path[i], path[i + 1]) {
      assert Together(links, path[i], path[i + 1]);
      var k :| 0 <= k < |links| && path[i] in links[k] && path[i + 1] in links[k];
      assert (links + [more])[k] == links[k];
    }
  }

  // ---------------------------------------------------------------- what links identifiers

  ghost function StrongSet(p: Observation): set<Ident> {
    set x | x in StrongIdents(p)
  }

  ghost function HeldStrong(record: Record): set<Ident> {
    (set s | s in record.sessionIds :: Sid(s)) + (set k | k in record.sessionKeys && IsStrongSessionKey(k) :: Key(k))
    + (set r | r in record.runIds :: Run(r))
  }

  /**
   * The link made by one observation: its own strong identifiers and, when it is attached
   * through a shared alias alone, those of the record it is attached to.
   */
  ghost function LinkOf(t: Tracker, p: Observation): set<Ident> {
    if !Accepted(t.records, p) then {}
    else if StrongMatches(t.records, StrongIdents(p)) == [] && Home(t, p) in t.records then
      StrongSet(p) + HeldStrong(t.records[Home(t, p)])
    else StrongSet(p)
  }

  ghost function Observing(ps: seq<Observation>): Tracker {
    if ps == [] then EMPTY else Observe(Observing(ps[..|ps| - 1]), ps[|ps| - 1])
  }

  lemma {:induction false} ObservingIsValid(ps: seq<Observation>)
    ensures ValidTracker(Observing(ps))
  {
    if ps != [] {
      ObservingIsValid(ps[..|ps| - 1]);
      ObserveKeepsInv(Observing(ps[..|ps| - 1]), ps[|ps| - 1]);
    }
  }

  ghost predicate SameRecord(records: Records, a: Ident, b: Ident) {
    exists r :: r in records && Holds(records[r], a) && Holds(records[r], b)
  }

  /** Identifiers of one record are connected. */
  ghost predicate Sound(records: Records, links: seq<set<Ident>>) {
    forall r, a, b :: r in records && Strong(a) && Strong(b) && Holds(records[r], a) && Holds(records[r], b)
                      ==> Connected(links, a, b)
  }

  ghost predicate HeldByOne(records: Records, link: set<Ident>) {
    link == {} || exists r :: r in records && forall x :: x in link ==> Strong(x) && Holds(records[r], x)
  }

  /** Every link lies within one record. */
  ghost predicate Complete(records: Records, links: seq<set<Ident>>) {
    forall k :: 0 <= k < |links| ==> HeldByOne(records, links[k])
  }

  lemma {:induction false} PathStaysInRecord(records: Records, links: seq<set<Ident>>, path: seq<Ident>)
    requires Separate(records) && Complete(records, links) && |path| >= 2 && IsPath(links, path)
    ensures SameRecord(records, path[0], path[|path| - 1])
    ensures Strong(path[0]) && Strong(path[|path| - 1])
  {
    var n := |path| - 1;
    assert Together(links, path[n - 1], path[n]);
    var k :| 0 <= k < |links| && path[n - 1] in links[k] && path[n] in links[k];
    assert HeldByOne(records, links[k]);
    var r :| r in records && forall x :: x in links[k] ==> Strong(x) && Holds(records[r], x);
    if n > 1 {
      var front := path[..n];
      assert IsPath(links, front) by {
        forall i | 0 <= i < |front| - 1 ensures Together(links, front[i], front[i + 1]) {
          assert Together(links, path[i], path[i + 1]);
        }
      }
      PathStaysInRecord(records, links, front);
      var q :| q in records && Holds(records[q], path[0]) && Holds(records[q], path[n - 1]);
      assert q == r;
    }
  }

  /** Gathering keeps links within records. */
  lemma GatheredKeepsLink(before: Records, joined: set<RecordId>, added: iset<Ident>, home: RecordId, after: Records,
                          link: set<Ident>)
    requires Gathered(before, joined, added, home, after) && HeldByOne(before, link) && home !in before.Keys - joined
    ensures HeldByOne(after, link)
  {
    if link != {} {
      var r :| r in before && forall x :: x in link ==> Strong(x) && Holds(before[r], x);
      if r in joined {
        forall x | x in link ensures Strong(x) && Holds(after[home], x) {
          assert HeldIn(before, joined, x);
        }
      } else {
        assert after[r] == before[r];
      }
    }
  }

  lemma LinkContents(t: Tracker, p: Observation)
    requires ValidTracker(t) && Accepted(t.records, p)
    ensures StrongSet(p) <= LinkOf(t, p)
    ensures forall x :: x in LinkOf(t, p) ==> Strong(x) && (x in Mentioned(p) || HeldIn(t.records, Joined(t.records, p), x))
    ensures StrongMatches(t.records, StrongIdents(p)) == [] ==>
      forall x, r :: r in Joined(t.records, p) && Strong(x) && Holds(t.records[r], x) ==> x in LinkOf(t, p)
  {
    var joined, home := Joined(t.records, p), Home(t, p);
    ResolveShape(t.records, p);
    assert home in t.records ==> home in joined;
    forall x ensures x in StrongSet(p) ==> Strong(x) && x in Mentioned(p) { StrongIdentsAre(p, x); }
    forall r | StrongMatches(t.records, StrongIdents(p)) == [] && r in joined ensures r == home {
      SingletonOf(joined, r);
    }
    forall x | home in t.records ensures x in HeldStrong(t.records[home]) <==> Holds(t.records[home], x) && Strong(x) {
      HeldStrongAre(t.records[home], x);
    }
  }

  lemma HeldStrongAre(record: Record, x: Ident)
    ensures x in HeldStrong(record) <==> Holds(record, x) && Strong(x)
  {
  }

  lemma NewLinkHeld(t: Tracker, p: Observation)
    requires ValidTracker(t) && Accepted(t.records, p)
    ensures HeldByOne(Observe(t, p).records, LinkOf(t, p))
  {
    ObserveShape(t, p);
    LinkContents(t, p);
    HeldAfterGathering(t.records, Joined(t.records, p), Mentioned(p), Home(t, p), Observe(t, p).records, LinkOf(t, p));
  }

  lemma HeldAfterGathering(before: Records, joined: set<RecordId>, added: iset<Ident>, home: RecordId, after: Records,
                           link: set<Ident>)
    requires Gathered(before, joined, added, home, after)
    requires forall x :: x in link ==> Strong(x) && (x in added || HeldIn(before, joined, x))
    ensures HeldByOne(after, link)
  {
  }

  /** A strong identifier of any gathered record is connected to any strong one of the observation. */
  lemma ReachesObservation(t: Tracker, p: Observation, links: seq<set<Ident>>, a: Ident, c: Ident)
    requires ValidTracker(t) && Accepted(t.records, p) && Sound(t.records, links)
    requires c in StrongSet(p) && Strong(a)
    requires a in Mentioned(p) || HeldIn(t.records, Joined(t.records, p), a)
    ensures Connected(links + [LinkOf(t, p)], a, c)
  {
    LinkContents(t, p);
    var link := LinkOf(t, p);
    var all, joined, ms := links + [link], Joined(t.records, p), StrongMatches(t.records, StrongIdents(p));
    if a in Mentioned(p) {
      StrongIdentsAre(p, a);
      LinkConnects(links, link, a, c);
    } else {
      var r :| r in joined && r in t.records && Holds(t.records[r], a);
      if ms != [] {
        var x := MatchedThrough(t.records, p, r);
        ConnectedMonotone(links, link, a, x);
        LinkConnects(links, link, x, c);
        ConnectedTransitive(all, a, x, c);
      } else {
        LinkConnects(links, link, a, c);
      }
    }
  }

  lemma MatchedThrough(records: Records, p: Observation, r: RecordId) returns (x: Ident)
    requires StrongMatches(records, StrongIdents(p)) != [] && r in Joined(records, p)
    ensures x in StrongSet(p) && Strong(x) && Holds(records[r], x)
  {
    var ms := StrongMatches(records, StrongIdents(p));
    var i :| 0 <= i < |ms| && ms[i] == r;
    x :| x in StrongIdents(p) && Holds(records[r], x);
    StrongIdentsAre(p, x);
  }

  lemma LinkConnects(links: seq<set<Ident>>, link: set<Ident>, a: Ident, b: Ident)
    requires a in link && b in link
    ensures Connected(links + [link], a, b)
  {
    assert (links + [link])[|links|] == link;
    assert Together(links + [link], a, b);
    TogetherConnects(links + [link], a, b);
  }

  lemma AcceptedHasStrong(t: Tracker, p: Observation) returns (c: Ident)
    requires ValidTracker(t) && Accepted(t.records, p)
    ensures c in StrongSet(p)
  {
    if StrongMatches(t.records, StrongIdents(p)) == [] {
      ConsideredWithoutMatch(t.records, p);
      HasStrongIffMentioned(p);
      c :| Mentions(p, c) && Strong(c) && !c.Run?;
      StrongIdentsAre(p, c);
    } else {
      c := StrongIdents(p)[0];
    }
  }

  lemma ObserveKeepsSound(t: Tracker, p: Observation, links: seq<set<Ident>>)
    requires ValidTracker(t) && Sound(t.records, links)
    ensures Sound(Observe(t, p).records, links + [LinkOf(t, p)])
  {
    ObserveShape(t, p);
    var after, home, all := Observe(t, p).records, Home(t, p), links + [LinkOf(t, p)];
    forall r, a, b | r in after && Strong(a) && Strong(b) && Holds(after[r], a) && Holds(after[r], b)
      ensures Connected(all, a, b)
    {
      if Accepted(t.records, p) && r == home {
        var c := AcceptedHasStrong(t, p);
        ReachesObservation(t, p, links, a, c);
        ReachesObservation(t, p, links, b, c);
        ConnectedSymmetric(all, b, c);
        ConnectedTransitive(all, a, c, b);
      } else {
        assert after[r] == t.records[r];
        ConnectedMonotone(links, LinkOf(t, p), a, b);
      }
    }
  }

  lemma ObserveKeepsComplete(t: Tracker, p: Observation, links: seq<set<Ident>>)
    requires ValidTracker(t) && Complete(t.records, links)
    ensures Complete(Observe(t, p).records, links + [LinkOf(t, p)])
  {
    ObserveShape(t, p);
    if Accepted(t.records, p) {
      forall k | 0 <= k < |links| ensures HeldByOne(Observe(t, p).records, links[k]) {
        GatheredKeepsLink(t.records, Joined(t.records, p), Mentioned(p), Home(t, p), Observe(t, p).records, links[k]);
      }
      NewLinkHeld(t, p);
    }
  }

  lemma ComponentsMatch(records: Records, links: seq<set<Ident>>, a: Ident, b: Ident)
    requires Separate(records) && Sound(records, links) && Complete(records, links)
    ensures Strong(a) && Strong(b) && SameRecord(records, a, b) <==> Connected(links, a, b)
  {
    if Connected(links, a, b) {
      var path :| |path| >= 2 && path[0] == a && path[|path| - 1] == b && IsPath(links, path);
      PathStaysInRecord(records, links, path);
    }
  }

  // ---------------------------------------------------------------- links over runs of all operations

  /** The link made by a query or a lookup: its strong identifiers that are already known. */
  ghost function KnownLink(records: Records, p: Observation): set<Ident> {
    set x | x in StrongIdents(p) && Owned(records, x)
  }

  lemma KnownLinkIsJoined(records: Records, p: Observation, x: Ident)
    requires Inv(records) && x in KnownLink(records, p)
    ensures Strong(x) && HeldIn(records, Joined(records, p), x) && StrongMatches(records, StrongIdents(p)) != []
  {
    StrongIdentsAre(p, x);
    var r :| r in records && Holds(records[r], x);
    KnownIsJoined(records, p, x, r);
  }

  /** Identifiers of the records that a request brings together are connected by its link. */
  lemma JoinedAreConnected(records: Records, p: Observation, links: seq<set<Ident>>, a: Ident, b: Ident)
    requires Sound(records, links) && Strong(a) && Strong(b)
    requires HeldIn(records, Joined(records, p), a) && HeldIn(records, Joined(records, p), b)
    ensures Connected(links + [KnownLink(records, p)], a, b)
  {
    hide Connected, Holds, StrongIdents, StrongMatches, WeakMatches;
    var joined, link := Joined(records, p), KnownLink(records, p);
    var all := links + [link];
    var q :| q in joined && q in records && Holds(records[q], a);
    var r :| r in joined && r in records && Holds(records[r], b);
    if StrongMatches(records, StrongIdents(p)) == [] {
      SingletonOf(joined, q);
      ConnectedMonotone(links, link, a, b);
    } else {
      var x := MatchedThrough(records, p, q);
      var y := MatchedThrough(records, p, r);
      ConnectedMonotone(links, link, a, x);
      LinkConnects(links, link, x, y);
      ConnectedMonotone(links, link, y, b);
      ConnectedTransitive(all, a, x, y);
      ConnectedTransitive(all, a, y, b);
    }
  }

  lemma ResolveKeepsSound(records: Records, p: Observation, links: seq<set<Ident>>)
    requires Sound(records, links)
    ensures Sound(Resolve(records, p).0, links + [KnownLink(records, p)])
  {
    hide Resolve, Connected, Joined, KnownLink, Holds;
    ResolveShape(records, p);
    var after, resolution, all := Resolve(records, p).0, Resolve(records, p).1, links + [KnownLink(records, p)];
    forall r, a, b | r in after && Strong(a) && Strong(b) && Holds(after[r], a) && Holds(after[r], b)
      ensures Connected(all, a, b)
    {
      if resolution.Resolved? && r == resolution.id {
        JoinedAreConnected(records, p, links, a, b);
      } else {
        ConnectedMonotone(links, KnownLink(records, p), a, b);
      }
    }
  }

  lemma ResolveKeepsComplete(records: Records, p: Observation, links: seq<set<Ident>>)
    requires Inv(records) && Complete(records, links)
    ensures Complete(Resolve(records, p).0, links + [KnownLink(records, p)])
  {
    hide Resolve, Joined, KnownLink, Holds, HeldByOne;
    ResolveShape(records, p);
    var after, resolution, link := Resolve(records, p).0, Resolve(records, p).1, KnownLink(records, p);
    forall x | x in link ensures Strong(x) && HeldIn(records, Joined(records, p), x) { KnownLinkIsJoined(records, p, x); }
    if resolution.Resolved? {
      forall k | 0 <= k < |links| ensures HeldByOne(after, links[k]) {
        GatheredKeepsLink(records, Joined(records, p), iset{}, resolution.id, after, links[k]);
      }
      HeldAfterGathering(records, Joined(records, p), iset{}, resolution.id, after, link);
    } else {
      assert link == {};
      EmptyLinkIsHeld(after);
    }
  }

  lemma EmptyLinkIsHeld(records: Records)
    ensures HeldByOne(records, {})
  {
  }

  ghost predicate SameIdents(before: Records, after: Records) {
    before.Keys == after.Keys
    && forall r, x :: r in before ==> (Holds(after[r], x) <==> Holds(before[r], x))
  }

  lemma SameIdentsKeepLinks(before: Records, after: Records, links: seq<set<Ident>>)
    requires SameIdents(before, after) && Sound(before, links) && Complete(before, links)
    ensures Sound(after, links) && Complete(after, links)
  {
    hide Connected, Holds;
    forall k | 0 <= k < |links| ensures HeldByOne(after, links[k]) {
      assert HeldByOne(before, links[k]);
    }
  }

  lemma PruneKeepsIdents(records: Records, which: set<RecordId>, ttl: int, now: int)
    ensures SameIdents(records, PruneMatched(records, which, ttl, now))
  {
  }

  lemma QueryKeepsIdents(t: Tracker, q: Observation, ttl: int)
    ensures SameIdents(Resolve(t.records, q).0, QueryProvenance(t, q, ttl).records)
  {
    hide Resolve, PruneMatched, Holds;
    var after, resolution := Resolve(t.records, q).0, Resolve(t.records, q).1;
    match resolution
    case Unresolved =>
    case Ambiguous(ms) => PruneKeepsIdents(after, ms, ttl, q.now);
    case Resolved(r) => PruneKeepsIdents(after, {r}, ttl, q.now);
  }

  // What an ending forgets.

  ghost function Forgotten(t: Tracker, identifier: string): set<Ident> {
    var (merged, resolution) := Resolve(t.records, LookupRequest(identifier));
    if resolution.Resolved? && resolution.id in merged then HeldStrong(merged[resolution.id]) else {}
  }

  ghost function Trimmed(links: seq<set<Ident>>, gone: set<Ident>): seq<set<Ident>> {
    seq(|links|, k requires 0 <= k < |links| => links[k] - gone)
  }

  lemma TrimKeepsComplete(records: Records, id: RecordId, links: seq<set<Ident>>)
    requires id in records && Complete(records, links)
    ensures Complete(records - {id}, Trimmed(links, HeldStrong(records[id])))
  {
    var gone := HeldStrong(records[id]);
    forall x ensures x in gone <==> Holds(records[id], x) && Strong(x) { HeldStrongAre(records[id], x); }
    hide Holds, HeldStrong, Strong;
    forall k | 0 <= k < |links| ensures HeldByOne(records - {id}, links[k] - gone) {
      assert HeldByOne(records, links[k]);
      if x :| x in links[k] - gone {
        var r :| r in records && forall y :: y in links[k] ==> Strong(y) && Holds(records[r], y);
        assert r != id && (records - {id})[r] == records[r];
      }
    }
  }

  /** A path that starts outside a record never enters it. */
  lemma PathAvoids(records: Records, id: RecordId, links: seq<set<Ident>>, path: seq<Ident>, r: RecordId, i: nat)
    requires Separate(records) && Complete(records, links) && |path| >= 2 && IsPath(links, path) && i < |path|
    requires id in records && r in records && r != id && Holds(records[r], path[0]) && Strong(path[0])
    ensures path[i] !in HeldStrong(records[id])
  {
    HeldStrongAre(records[id], path[i]);
    hide Complete, HeldStrong, Holds, Strong;
    if i > 0 {
      var front := path[..i + 1];
      forall j | 0 <= j < |front| - 1 ensures Together(links, front[j], front[j + 1]) {
        assert Together(links, path[j], path[j + 1]);
      }
      PathStaysInRecord(records, links, front);
      var q :| q in records && Holds(records[q], path[0]) && Holds(records[q], path[i]);
      assert q == r;
    }
  }

  lemma TrimKeepsConnected(records: Records, id: RecordId, links: seq<set<Ident>>, a: Ident, b: Ident, r: RecordId)
    requires Separate(records) && Complete(records, links) && Connected(links, a, b)
    requires id in records && r in records && r != id && Holds(records[r], a) && Strong(a)
    ensures Connected(Trimmed(links, HeldStrong(records[id])), a, b)
  {
    hide Complete, HeldStrong, Holds, Strong, Separate;
    var gone := HeldStrong(records[id]);
    var path :| |path| >= 2 && path[0] == a && path[|path| - 1] == b && IsPath(links, path);
    forall i | 0 <= i < |path| - 1 ensures Together(Trimmed(links, gone), path[i], path[i + 1]) {
      PathAvoids(records, id, links, path, r, i);
      PathAvoids(records, id, links, path, r, i + 1);
      assert Together(links, path[i], path[i + 1]);
      var k :| 0 <= k < |links| && path[i] in links[k] && path[i + 1] in links[k];
      assert Trimmed(links, gone)[k] == links[k] - gone;
    }
  }

  lemma TrimKeepsSound(records: Records, id: RecordId, links: seq<set<Ident>>)
    requires id in records && Separate(records) && Sound(records, links) && Complete(records, links)
    ensures Sound(records - {id}, Trimmed(links, HeldStrong(records[id])))
  {
    hide Complete, HeldStrong, Holds, Strong, Separate, Connected, Trimmed;
    var after := records - {id};
    forall r, a, b | r in after && Strong(a) && Strong(b) && Holds(after[r], a) && Holds(after[r], b)
      ensures Connected(Trimmed(links, HeldStrong(records[id])), a, b)
    {
      TrimKeepsConnected(records, id, links, a, b, r);
    }
  }

  lemma TrimmedByNothing(links: seq<set<Ident>>)
    ensures Trimmed(links, {}) == links
  {
    assert forall k :: 0 <= k < |links| ==> links[k] - {} == links[k];
  }

  /** The links after one more operation: an ending or a clear takes the forgotten identifiers out of them. */
  ghost function LinksAfter(t: Tracker, step: Step, links: seq<set<Ident>>): seq<set<Ident>> {
    match step
    case Observed(p) => links + [LinkOf(t, p)]
    case Queried(q, _) => links + [KnownLink(t.records, q)]
    case LookedUp(identifier) => links + [KnownLink(t.records, LookupRequest(identifier))]
    case Ended(identifier) => Trimmed(links + [KnownLink(t.records, LookupRequest(identifier))], Forgotten(t, identifier))
    case Cleared => []
  }

  ghost function Links(steps: seq<Step>): seq<set<Ident>> {
    if steps == [] then []
    else LinksAfter(After(steps[..|steps| - 1]), steps[|steps| - 1], Links(steps[..|steps| - 1]))
  }

  ghost predicate Described(records: Records, links: seq<set<Ident>>) {
    Sound(records, links) && Complete(records, links)
  }

  lemma ResolveKeepsDescribed(records: Records, p: Observation, links: seq<set<Ident>>)
    requires Inv(records) && Described(records, links)
    ensures Described(Resolve(records, p).0, links + [KnownLink(records, p)])
  {
    ResolveKeepsSound(records, p, links);
    ResolveKeepsComplete(records, p, links);
  }

  lemma EndKeepsDescribed(t: Tracker, identifier: string, links: seq<set<Ident>>)
    requires ValidTracker(t) && Described(t.records, links)
    ensures Described(EndSession(t, identifier).records, LinksAfter(t, Ended(identifier), links))
  {
    hide Resolve, LookupRequest, KnownLink, Trimmed, Sound, Complete, HeldStrong, WellFormed, Separate;
    var p := LookupRequest(identifier);
    var merged, resolution, all := Resolve(t.records, p).0, Resolve(t.records, p).1, links + [KnownLink(t.records, p)];
    ResolveKeepsDescribed(t.records, p, links);
    ResolvedInv(t.records, p);
    ResolveShape(t.records, p);
    if resolution.Resolved? {
      TrimKeepsSound(merged, resolution.id, all);
      TrimKeepsComplete(merged, resolution.id, all);
    } else {
      TrimmedByNothing(all);
    }
  }

  lemma StepKeepsDescribed(t: Tracker, step: Step, links: seq<set<Ident>>)
    requires ValidTracker(t) && Described(t.records, links)
    ensures Described(Apply(t, step).records, LinksAfter(t, step, links))
  {
    hide Observe, QueryProvenance, Resolve, LookupRequest, EndSession, Sound, Complete, LinkOf, KnownLink, Trimmed, Forgotten, Inv;
    match step
    case Observed(p) =>
      ObserveKeepsSound(t, p, links);
      ObserveKeepsComplete(t, p, links);
    case Queried(q, ttl) =>
      ResolveKeepsDescribed(t.records, q, links);
      QueryKeepsIdents(t, q, ttl);
      SameIdentsKeepLinks(Resolve(t.records, q).0, QueryProvenance(t, q, ttl).records, links + [KnownLink(t.records, q)]);
    case LookedUp(identifier) => ResolveKeepsDescribed(t.records, LookupRequest(identifier), links);
    case Ended(identifier) => EndKeepsDescribed(t, identifier, links);
    case Cleared => NothingIsDescribed();
  }

  lemma NothingIsDescribed()
    ensures Described(map[], [])
  {
  }

  lemma {:induction false} LinksDescribeRecords(steps: seq<Step>)
    ensures Described(After(steps).records, Links(steps))
  {
    hide Described, Apply, LinksAfter, ValidTracker;
    if steps != [] {
      LinksDescribeRecords(steps[..|steps| - 1]);
      ReachableInv(steps[..|steps| - 1]);
      StepKeepsDescribed(After(steps[..|steps| - 1]), steps[|steps| - 1], Links(steps[..|steps| - 1]));
    } else {
      NothingIsDescribed();
    }
  }

  /**
   * After any run of the public operations, two strong identifiers share a live record exactly
   * when the links of the run connect them.
   */
  lemma RecordsAreComponents(steps: seq<Step>, a: Ident, b: Ident)
    requires Strong(a) && Strong(b)
    ensures SameRecord(After(steps).records, a, b) <==> Connected(Links(steps), a, b)
  {
    LinksDescribeRecords(steps);
    ReachableInv(steps);
    ComponentsMatch(After(steps).records, Links(steps), a, b);
  }

  // ---------------------------------------------------------------- runs without shared aliases

  /** The graph read off the observations alone: no tracker state involved. */
  ghost function OwnLink(p: Observation): set<Ident> {
    if HasStrongIdentifiers(p) then StrongSet(p) else {}
  }

  ghost function OwnLinks(ps: seq<Observation>): seq<set<Ident>> {
    if ps == [] then [] else OwnLinks(ps[..|ps| - 1]) + [OwnLink(ps[|ps| - 1])]
  }

  ghost predicate AllStrong(records: Records) {
    forall r, x :: r in records && Holds(records[r], x) ==> Strong(x)
  }

  lemma MentionsOnlyStrong(p: Observation)
    requires NoSharedKey(p)
    ensures forall x :: x in Mentioned(p) ==> Strong(x)
    ensures !HasStrongIdentifiers(p) ==> forall x :: x in Mentioned(p) ==> x in StrongIdents(p) && x in StrongSet(p) && x.Run?
  {
    HasStrongIffMentioned(p);
    forall x | x in Mentioned(p) ensures x in StrongIdents(p) <==> Strong(x) { StrongIdentsAre(p, x); }
  }

  lemma NoAliasNeverRefused(records: Records, p: Observation)
    requires NoSharedKey(p)
    ensures WeakMatches(records, p) == {} && !Refused(records, p)
  {
  }

  lemma NoAliasLink(t: Tracker, p: Observation)
    requires ValidTracker(t) && NoSharedKey(p) && HasStrongIdentifiers(p)
    ensures LinkOf(t, p) == StrongSet(p)
  {
    NoAliasNeverRefused(t.records, p);
    ObserveShape(t, p);
  }

  /** An observation with nothing but an already known run id leaves the identifiers where they are. */
  lemma RunOnlyKeepsIdents(t: Tracker, p: Observation, links: seq<set<Ident>>)
    requires ValidTracker(t) && NoSharedKey(p) && !HasStrongIdentifiers(p)
    requires Sound(t.records, links) && Complete(t.records, links)
    ensures Sound(Observe(t, p).records, links + [{}]) && Complete(Observe(t, p).records, links + [{}])
  {
    hide Observe, Home, Joined, Holds, Connected, NoSharedKey, HasStrongIdentifiers, Mentions, StrongKeyIn;
    ObserveShape(t, p);
    var after, home, joined := Observe(t, p).records, Home(t, p), Joined(t.records, p);
    if Accepted(t.records, p) {
      forall x ensures Holds(after[home], x) ==> HeldIn(t.records, joined, x) {
        if x in Mentioned(p) {
          RunIsHeld(t, p, x);
        }
      }
      OneRunJoinsOne(t, p);
      forall k | 0 <= k < |links| ensures HeldByOne(after, links[k]) {
        GatheredKeepsLink(t.records, joined, Mentioned(p), home, after, links[k]);
      }
    }
    forall r, a, b | r in after && Strong(a) && Strong(b) && Holds(after[r], a) && Holds(after[r], b)
      ensures Connected(links + [{}], a, b)
    {
      if Accepted(t.records, p) && r == home {
        assert HeldIn(t.records, joined, a) && HeldIn(t.records, joined, b);
      } else {
        assert after[r] == t.records[r];
      }
      ConnectedMonotone(links, {}, a, b);
    }
  }

  lemma RunIsHeld(t: Tracker, p: Observation, x: Ident)
    requires ValidTracker(t) && NoSharedKey(p) && !HasStrongIdentifiers(p) && Accepted(t.records, p) && x in Mentioned(p)
    ensures HeldIn(t.records, Joined(t.records, p), x)
  {
    MentionsOnlyStrong(p);
    var r :| r in t.records && Holds(t.records[r], Run(p.runId.value));
    KnownIsJoined(t.records, p, x, r);
  }

  lemma OneRunJoinsOne(t: Tracker, p: Observation)
    requires ValidTracker(t) && NoSharedKey(p) && !HasStrongIdentifiers(p) && Accepted(t.records, p)
    ensures forall a, b :: a in Joined(t.records, p) && b in Joined(t.records, p) ==> a == b
  {
    MentionsOnlyStrong(p);
    if StrongMatches(t.records, StrongIdents(p)) == [] {
      NoAliasNeverRefused(t.records, p);
    } else {
      forall a, b | a in Joined(t.records, p) && b in Joined(t.records, p) ensures a == b {
        var x := MatchedThrough(t.records, p, a);
        var y := MatchedThrough(t.records, p, b);
        StrongIdentsAre(p, x);
        StrongIdentsAre(p, y);
        assert x in Mentioned(p) && y in Mentioned(p);
      }
    }
  }

  lemma OwnLinkStep(t: Tracker, p: Observation, links: seq<set<Ident>>)
    requires ValidTracker(t) && NoSharedKey(p) && Sound(t.records, links) && Complete(t.records, links)
    ensures var link := OwnLink(p);
      Sound(Observe(t, p).records, links + [link]) && Complete(Observe(t, p).records, links + [link])
  {
    if HasStrongIdentifiers(p) {
      NoAliasLink(t, p);
      ObserveKeepsSound(t, p, links);
      ObserveKeepsComplete(t, p, links);
    } else {
      RunOnlyKeepsIdents(t, p, links);
    }
  }

  lemma ObserveKeepsAllStrong(t: Tracker, p: Observation)
    requires ValidTracker(t) && NoSharedKey(p) && AllStrong(t.records)
    ensures AllStrong(Observe(t, p).records)
  {
    MentionsOnlyStrong(p);
    ObserveShape(t, p);
    if Accepted(t.records, p) {
      GatheredKeepsAllStrong(t.records, Joined(t.records, p), Mentioned(p), Home(t, p), Observe(t, p).records);
    }
  }

  lemma GatheredKeepsAllStrong(before: Records, joined: set<RecordId>, added: iset<Ident>, home: RecordId, after: Records)
    requires Gathered(before, joined, added, home, after) && AllStrong(before)
    requires forall x :: x in added ==> Strong(x)
    ensures AllStrong(after)
  {
  }

  lemma {:induction false} OwnLinksDescribeRecords(ps: seq<Observation>)
    requires forall i :: 0 <= i < |ps| ==> NoSharedKey(ps[i])
    ensures Sound(Observing(ps).records, OwnLinks(ps)) && Complete(Observing(ps).records, OwnLinks(ps))
    ensures AllStrong(Observing(ps).records)
  {
    if ps != [] {
      var front, p := ps[..|ps| - 1], ps[|ps| - 1];
      var t := Observing(front);
      OwnLinksDescribeRecords(front);
      ObservingIsValid(front);
      OwnLinkStep(t, p, OwnLinks(front));
      ObserveKeepsAllStrong(t, p);
    }
  }

  /**
   * Without shared aliases the live records are exactly the connected components of the graph
   * that joins the identifiers occurring in one observation, and they hold nothing else.
   */
  lemma PartitionWithoutAliases(ps: seq<Observation>, a: Ident, b: Ident)
    requires forall i :: 0 <= i < |ps| ==> NoSharedKey(ps[i])
    ensures SameRecord(Observing(ps).records, a, b) <==> Connected(OwnLinks(ps), a, b)
  {
    OwnLinksDescribeRecords(ps);
    ObservingIsValid(ps);
    ComponentsMatch(Observing(ps).records, OwnLinks(ps), a, b);
  }

  // ---------------------------------------------------------------- shared aliases

  /** The observation's own strong identifiers ended up beside identifiers recorded earlier. */
  ghost predicate JoinsEarlier(t: Tracker, p: Observation) {
    exists r, x, y :: r in Observe(t, p).records && x in StrongSet(p) && Owned(t.records, y) && Strong(y)
      && Holds(Observe(t, p).records[r], x) && Holds(Observe(t, p).records[r], y)
  }

  lemma UnownedMatchNothing(records: Records, p: Observation)
    requires forall x :: x in StrongSet(p) ==> !Owned(records, x)
    ensures StrongMatches(records, StrongIdents(p)) == []
  {
    if StrongMatches(records, StrongIdents(p)) != [] {
      var x := MatchedThrough(records, p, AnyMatch(records, p));
    }
  }

  /** A request none of whose strong identifiers is known, such as one of shared aliases only, merges nothing. */
  lemma UnknownRequestMergesNothing(records: Records, p: Observation)
    requires forall x :: x in StrongSet(p) ==> !Owned(records, x)
    ensures Resolve(records, p).0 == records
  {
    UnownedMatchNothing(records, p);
    ResolveWithoutMatch(records, p);
  }

  lemma ResolveWithoutMatch(records: Records, p: Observation)
    requires StrongMatches(records, StrongIdents(p)) == []
    ensures Resolve(records, p).0 == records
  {
  }

  lemma AttachedJoinsEarlier(t: Tracker, p: Observation)
    requires ValidTracker(t) && HasStrongIdentifiers(p) && StrongMatches(t.records, StrongIdents(p)) == []
    requires |WeakMatches(t.records, p)| == 1
    ensures JoinsEarlier(t, p) && |Observe(t, p).records| == |t.records|
  {
    ObserveShape(t, p);
    var c := AcceptedHasStrong(t, p);
    StrongIdentsAre(p, c);
    assert c in Mentioned(p);
    var home := Home(t, p);
    SingletonOf(Joined(t.records, p), home);
    var y := HoldsSome(t.records[home]);
    HomeHoldsBoth(t.records, home, Mentioned(p), Observe(t, p).records, c, y);
    assert Owned(t.records, y);
  }

  lemma HomeHoldsBoth(before: Records, home: RecordId, added: iset<Ident>, after: Records, c: Ident, y: Ident)
    requires Gathered(before, {home}, added, home, after) && c in added && Holds(before[home], y)
    ensures Holds(after[home], c) && Holds(after[home], y) && |after| == |before|
  {
    assert HeldIn(before, {home}, y);
    assert after.Keys == before.Keys;
  }

  lemma HoldsSome(record: Record) returns (y: Ident)
    requires WellFormed(record)
    ensures Holds(record, y) && Strong(y)
  {
    if s :| s in record.sessionIds {
      y := Sid(s);
    } else {
      var k :| k in record.strongSessionKeys;
      y := Key(k);
    }
  }

  lemma SeparateStaysSeparate(t: Tracker, p: Observation)
    requires ValidTracker(t) && Joined(t.records, p) == {}
    requires forall x :: x in StrongSet(p) ==> !Owned(t.records, x)
    ensures !JoinsEarlier(t, p)
  {
    ObserveShape(t, p);
    var after, home := Observe(t, p).records, Home(t, p);
    forall r, x, y | r in after && x in StrongSet(p) && Owned(t.records, y) && Strong(y) && Holds(after[r], x)
      ensures !Holds(after[r], y)
    {
      StrongIdentsAre(p, y);
      if Accepted(t.records, p) && r == home {
        assert y in Mentioned(p) ==> y in StrongSet(p);
      }
    }
  }

  /**
   * New strong identifiers that match no record are attached to an earlier session exactly when
   * one live record carries one of the observation's shared aliases; with none they start a
   * record, and with several the observation is refused.
   */
  lemma SharedAliasAttaches(t: Tracker, p: Observation)
    requires ValidTracker(t) && HasStrongIdentifiers(p)
    requires forall x :: x in StrongSet(p) ==> !Owned(t.records, x)
    ensures JoinsEarlier(t, p) <==> |WeakMatches(t.records, p)| == 1
    ensures |WeakMatches(t.records, p)| > 1 ==> Observe(t, p) == t
    ensures |Observe(t, p).records| == |t.records| + (if WeakMatches(t.records, p) == {} then 1 else 0)
  {
    UnownedMatchNothing(t.records, p);
    hide Observe, WeakMatches, StrongMatches, StrongIdents, ValidTracker, HasStrongIdentifiers, StrongSet, JoinsEarlier, Owned;
    if |WeakMatches(t.records, p)| == 1 {
      AttachedJoinsEarlier(t, p);
    } else {
      SeparateStaysSeparate(t, p);
      SeparateOutcome(t, p);
    }
  }

  lemma SeparateOutcome(t: Tracker, p: Observation)
    requires ValidTracker(t) && HasStrongIdentifiers(p) && StrongMatches(t.records, StrongIdents(p)) == []
    requires |WeakMatches(t.records, p)| != 1
    ensures if WeakMatches(t.records, p) == {} then |Observe(t, p).records| == |t.records| + 1 else Observe(t, p) == t
  {
    hide Observe, WeakMatches, StrongMatches, StrongIdents, HasStrongIdentifiers, Holds, HeldIn, StrongKeyIn, Mentioned;
    ObserveShape(t, p);
    if WeakMatches(t.records, p) == {} {
      assert Observe(t, p).records.Keys == t.records.Keys + {t.nextId};
    }
  }

  function Touch(sessionId: string, alias: string): Observation {
    Request(Some(sessionId), None, [], [alias], None)
  }

  lemma TouchMentions(id: string, alias: string)
    requires NonBlank(id) && !LooksLikeSessionKey(id) && NonBlank(alias) && IsSharedRuntimeSessionKey(alias)
    ensures SessionIds(Touch(id, alias)) == [id] && SessionKeysOf(Touch(id, alias)) == [alias]
    ensures StrongSet(Touch(id, alias)) == {Sid(id)} && HasStrongIdentifiers(Touch(id, alias))
    ensures forall x :: Mentions(Touch(id, alias), x) <==> x == Sid(id) || x == Key(alias)
  {
    var p := Touch(id, alias);
    assert ToSeq(p.sessionId) + p.aliasSessionIds == [id];
    DedupeOne(id);
    assert Filter(LooksLikeSessionKey, [id]) == [];
    assert ToSeq(p.sessionKey) + p.aliasSessionKeys + [] == [alias];
    DedupeOne(alias);
    forall x ensures x in StrongSet(p) <==> x == Sid(id) { StrongIdentsAre(p, x); }
  }

  lemma DedupeOne(s: string)
    requires NonBlank(s)
    ensures Dedupe([s]) == [s]
  {
    assert [s][..0] == [];
  }

  /**
   * Two unrelated session ids seen with the same shared alias end up in one record: the second
   * one has no strong match and exactly one live record carries the alias.
   */
  lemma SharedAliasCollapsesTwoSessions(a: string, b: string, alias: string)
    requires NonBlank(a) && !LooksLikeSessionKey(a) && NonBlank(b) && !LooksLikeSessionKey(b) && a != b
    requires NonBlank(alias) && IsSharedRuntimeSessionKey(alias)
    ensures SameRecord(Observing([Touch(a, alias), Touch(b, alias)]).records, Sid(a), Sid(b))
  {
    hide Observe, Touch, NonBlank, LooksLikeSessionKey, IsSharedRuntimeSessionKey, Mentions, Holds, SessionIds, SessionKeysOf, ValidTracker;
    var p, q := Touch(a, alias), Touch(b, alias);
    TouchMentions(a, alias);
    TouchMentions(b, alias);
    FirstTouch(p);
    var t := Observe(EMPTY, p);
    ObservingIsValid([]);
    ObserveKeepsInv(EMPTY, p);
    assert forall x :: Holds(t.records[0], x) <==> x == Sid(a) || x == Key(alias);
    SecondTouch(t, q, a, b, alias);
    assert [p, q][..1] == [p] && [p][..0] == [];
    assert Observing([p]) == t;
  }

  lemma SecondTouch(t: Tracker, q: Observation, a: string, b: string, alias: string)
    requires ValidTracker(t) && t.records.Keys == {0} && a != b
    requires forall x :: Holds(t.records[0], x) <==> x == Sid(a) || x == Key(alias)
    requires SessionIds(q) == [b] && SessionKeysOf(q) == [alias] && StrongSet(q) == {Sid(b)}
    requires HasStrongIdentifiers(q) && !IsStrongSessionKey(alias)
    ensures SameRecord(Observe(t, q).records, Sid(a), Sid(b))
  {
    hide Observe, StrongMatches, StrongIdents, Resolve, ValidTracker, HasStrongIdentifiers, IsStrongSessionKey, SessionIds, SessionKeysOf;
    hide Gathered, Holds, HeldIn, Mentioned, Mentions, SameRecord, Home, StrongSet, Owned, WeakMatches, AsSet;
    NewIdIsUnowned(t.records, q, a, b, alias);
    UnownedMatchNothing(t.records, q);
    OneWeakMatch(t.records, q, alias);
    ObserveShape(t, q);
    GatheredTogether(t.records, {0}, Mentioned(q), Home(t, q), Observe(t, q).records, Sid(a), Sid(b));
  }

  lemma NewIdIsUnowned(records: Records, q: Observation, a: string, b: string, alias: string)
    requires records.Keys == {0} && a != b && SessionIds(q) == [b] && StrongSet(q) == {Sid(b)}
    requires forall x :: Holds(records[0], x) <==> x == Sid(a) || x == Key(alias)
    ensures Sid(b) in Mentioned(q) && HeldIn(records, {0}, Sid(a)) && forall x :: x in StrongSet(q) ==> !Owned(records, x)
  {
    hide SessionIds, StrongSet, Holds;
  }

  lemma GatheredTogether(before: Records, joined: set<RecordId>, added: iset<Ident>, home: RecordId, after: Records, x: Ident, y: Ident)
    requires Gathered(before, joined, added, home, after) && HeldIn(before, joined, x) && y in added
    ensures SameRecord(after, x, y)
  {
    assert Holds(after[home], x) && Holds(after[home], y);
  }

  lemma OneWeakMatch(records: Records, q: Observation, alias: string)
    requires records.Keys == {0} && Holds(records[0], Key(alias))
    requires SessionKeysOf(q) == [alias] && !IsStrongSessionKey(alias)
    ensures WeakMatches(records, q) == {0}
  {
    hide IsStrongSessionKey, SessionKeysOf;
    assert alias in SessionKeysOf(q);
  }

  /** The first observation ever starts record 0 with exactly what it mentions. */
  lemma FirstTouch(p: Observation)
    requires HasStrongIdentifiers(p)
    ensures var t := Observe(EMPTY, p);
      t.records.Keys == {0} && forall x :: Holds(t.records[0], x) <==> Mentions(p, x)
  {
    UnownedMatchNothing(EMPTY.records, p);
    assert WeakMatches(EMPTY.records, p) == {};
    ObserveShape(EMPTY, p);
    assert Accepted(EMPTY.records, p);
    forall x ensures Holds(Observe(EMPTY, p).records[0], x) <==> Mentions(p, x) {
      assert !HeldIn(EMPTY.records, {}, x);
    }
  }

  ghost function AnyMatch(records: Records, p: Observation): (r: RecordId)
    requires StrongMatches(records, StrongIdents(p)) != []
    ensures r in Joined(records, p)
  {
    StrongMatches(records, StrongIdents(p))[0]
  }
}
