/**
 * The session tracker itself: record objects changed in place and three inverted indexes
 * from session id, session key and run id to record ids. Every method is proved to do to
 * the records what SessionRecords.dfy defines and to keep the indexes their exact inverse.
 */
module SessionTracking {
  import opened Options
  import opened SessionKeys
  import opened SessionRecords
  import opened SessionRuns

  // ---------------------------------------------------------------- indexes

  type Index = map<string, set<RecordId>>

  function Entries(index: Index, key: string): set<RecordId> {
    if key in index then index[key] else {}
  }

  function AddIndexEntry(index: Index, key: string, id: RecordId): Index {
    index[key := Entries(index, key) + {id}]
  }

  function RemoveIndexEntry(index: Index, key: string, id: RecordId, preserve: Option<RecordId>): Index {
    if key !in index then index
    else
      var current := index[key] - {id} + (if preserve.Some? then {preserve.value} else {});
      if current == {} then index - {key} else index[key := current]
  }

  ghost predicate NoEmptyEntry(index: Index) {
    forall k :: k in index ==> index[k] != {}
  }

  /** The index lists under each value exactly the records that hold it, and has no empty set. */
  ghost predicate Inverse(index: Index, records: Records, lane: Lane) {
    && NoEmptyEntry(index)
    && (forall s, r :: r in Entries(index, s) <==> r in records && Holds(records[r], Tagged(lane, s)))
  }

  /** The index with one more record under each of the values. */
  ghost predicate Extended(index: Index, values: set<string>, id: RecordId, indexed: Index) {
    && (NoEmptyEntry(index) ==> NoEmptyEntry(indexed))
    && (forall k :: Entries(indexed, k) == Entries(index, k) + (if k in values then {id} else {}))
  }

  /** The index without one record under the values, its heir kept or put in its place. */
  ghost predicate Stripped(index: Index, values: set<string>, id: RecordId, preserve: Option<RecordId>, indexed: Index) {
    && NoEmptyEntry(indexed)
    && (forall k :: Entries(indexed, k) ==
          if k in values then Entries(index, k) - {id} + (if preserve.Some? then {preserve.value} else {})
          else Entries(index, k))
  }

  lemma ExtendedKeepsInverse(index: Index, records: Records, lane: Lane, values: set<string>, id: RecordId,
                             indexed: Index, after: Record)
    requires Inverse(index, records, lane) && Extended(index, values, id, indexed)
    requires id in records ==> forall s :: Holds(after, Tagged(lane, s)) <==> Holds(records[id], Tagged(lane, s)) || s in values
    requires id !in records ==> forall s :: Holds(after, Tagged(lane, s)) <==> s in values
    ensures Inverse(indexed, records[id := after], lane)
  {
    forall s, r ensures r in Entries(indexed, s) <==>
      r in records[id := after] && Holds(records[id := after][r], Tagged(lane, s))
    {
      assert r in Entries(index, s) <==> r in records && Holds(records[r], Tagged(lane, s));
    }
  }

  lemma StrippedKeepsInverse(index: Index, records: Records, lane: Lane, values: set<string>, id: RecordId,
                             preserve: Option<RecordId>, indexed: Index)
    requires Inverse(index, records, lane) && id in records && Stripped(index, values, id, preserve, indexed)
    requires forall s :: s in values <==> Holds(records[id], Tagged(lane, s))
    requires preserve.Some? ==> preserve.value in records && preserve.value != id
    requires preserve.Some? ==> forall s :: s in values ==> Holds(records[preserve.value], Tagged(lane, s))
    ensures Inverse(indexed, records - {id}, lane)
  {
    forall s, r ensures r in Entries(indexed, s) <==>
      r in records - {id} && Holds((records - {id})[r], Tagged(lane, s))
    {
      assert r in Entries(index, s) <==> r in records && Holds(records[r], Tagged(lane, s));
      assert id in Entries(index, s) <==> s in values;
    }
  }

  /** Adds every value to a record's set and to the index. */
  method AddAll(index: Index, present: set<string>, values: set<string>, id: RecordId)
    returns (indexed: Index, extended: set<string>)
    ensures extended == present + values
    ensures Extended(index, values, id, indexed)
  {
    indexed, extended := index, present;
    var rest := values;
    while rest != {}
      invariant rest <= values
      invariant extended == present + (values - rest)
      invariant Extended(index, values - rest, id, indexed)
      decreases rest
    {
      var value :| value in rest;
      indexed, extended := AddIndexEntry(indexed, value, id), extended + {value};
      rest := rest - {value};
    }
  }

  method RemoveAll(index: Index, values: set<string>, id: RecordId, preserve: Option<RecordId>) returns (indexed: Index)
    requires NoEmptyEntry(index) && forall k :: k in values ==> id in Entries(index, k)
    ensures Stripped(index, values, id, preserve, indexed)
  {
    indexed := index;
    var rest := values;
    while rest != {}
      invariant rest <= values
      invariant Stripped(index, values - rest, id, preserve, indexed)
      decreases rest
    {
      var value :| value in rest;
      indexed := RemoveIndexEntry(indexed, value, id, preserve);
      rest := rest - {value};
    }
  }

  /** Appends the entries under one key that are not in the target yet. */
  method CollectIndexEntries(index: Index, key: string, target: seq<RecordId>) returns (collected: seq<RecordId>)
    requires forall i, j :: 0 <= i < j < |target| ==> target[i] != target[j]
    ensures forall i, j :: 0 <= i < j < |collected| ==> collected[i] != collected[j]
    ensures target <= collected
    ensures forall r :: r in collected <==> r in target || r in Entries(index, key)
    ensures forall i :: |target| <= i < |collected| ==> collected[i] in Entries(index, key) && collected[i] !in target
  {
    collected := target;
    var rest := Entries(index, key);
    while rest != {}
      invariant rest <= Entries(index, key)
      invariant forall i, j :: 0 <= i < j < |collected| ==> collected[i] != collected[j]
      invariant target <= collected
      invariant forall r :: r in collected <==> r in target || r in Entries(index, key) - rest
      invariant forall i :: |target| <= i < |collected| ==> collected[i] in Entries(index, key) && collected[i] !in target
      decreases rest
    {
      var r :| r in rest;
      if r !in collected {
        collected := collected + [r];
      }
      rest := rest - {r};
    }
  }

  lemma LanesAreStrong(p: Observation)
    ensures forall i :: 0 <= i < |SessionIds(p)| ==> Strong(Tagged(ById, SessionIds(p)[i]))
    ensures forall i :: 0 <= i < |StrongKeys(p)| ==> Strong(Tagged(ByKey, StrongKeys(p)[i]))
    ensures forall i :: 0 <= i < |RunIds(p)| ==> Strong(Tagged(ByRun, RunIds(p)[i]))
  {
    var keys := StrongKeys(p);
    assert forall i :: 0 <= i < |keys| ==> keys[i] in keys;
  }

  /** What a lookup appends when the entries are one record, or none. */
  lemma Appends(before: seq<RecordId>, entries: set<RecordId>, after: seq<RecordId>)
    requires before <= after && forall r :: r in after <==> r in before || r in entries
    requires forall k :: |before| <= k < |after| ==> after[k] in entries && after[k] !in before
    requires forall k, l :: 0 <= k < l < |after| ==> after[k] != after[l]
    ensures entries == {} ==> after == before
    ensures forall r :: entries == {r} ==> after == if r in before then before else before + [r]
  {
    var ext := after[|before|..];
    assert after == before + ext;
    assert forall i :: 0 <= i < |ext| ==> ext[i] == after[|before| + i];
    assert forall r :: r in AsSet(ext) <==> r in entries && r !in before;
    DistinctSize(ext);
    forall r | entries == {r} ensures after == if r in before then before else before + [r] {
      assert AsSet(ext) == if r in before then {} else {r};
    }
    if entries == {} {
      assert AsSet(ext) == {};
    }
  }

  /** One index lookup does what one step of StrongMatches does. */
  lemma OneLookup(records: Records, xs: seq<Ident>, x: Ident, before: seq<RecordId>, entries: set<RecordId>,
                  after: seq<RecordId>)
    requires Separate(records) && Strong(x) && before == StrongMatches(records, xs)
    requires forall r :: r in entries <==> r in records && Holds(records[r], x)
    requires before <= after && forall r :: r in after <==> r in before || r in entries
    requires forall k :: |before| <= k < |after| ==> after[k] in entries && after[k] !in before
    requires forall k, l :: 0 <= k < l < |after| ==> after[k] != after[l]
    ensures after == StrongMatches(records, xs + [x])
  {
    assert (xs + [x])[..|xs|] == xs;
    Appends(before, entries, after);
    if Owned(records, x) {
      assert entries == {OwnerOf(records, x)};
    } else {
      assert entries == {};
    }
  }

  /** Looks the values up one after the other. */
  method CollectLane(ghost records: Records, index: Index, values: seq<string>, ghost xs: seq<Ident>,
                     lane: Lane, target: seq<RecordId>) returns (collected: seq<RecordId>)
    requires Separate(records) && Inverse(index, records, lane)
    requires forall i :: 0 <= i < |values| ==> Strong(Tagged(lane, values[i]))
    requires target == StrongMatches(records, xs)
    ensures collected == StrongMatches(records, xs + Lift(values, lane))
  {
    hide StrongMatches, Separate, Holds;
    collected := target;
    assert xs + Lift(values[..0], lane) == xs;
    for i := 0 to |values|
      invariant collected == StrongMatches(records, xs + Lift(values[..i], lane))
    {
      var next := CollectIndexEntries(index, values[i], collected);
      ghost var x := Tagged(lane, values[i]);
      OneLookup(records, xs + Lift(values[..i], lane), x, collected, Entries(index, values[i]), next);
      assert xs + Lift(values[..i + 1], lane) == xs + Lift(values[..i], lane) + [x];
      collected := next;
    }
    assert values[..|values|] == values;
  }

  /** The strong lane: session ids, then strong keys, then the run id. */
  method MatchStrong(ghost records: Records, bySessionId: Index, bySessionKey: Index, byRunId: Index, p: Observation)
    returns (matches: seq<RecordId>)
    requires Separate(records)
    requires Inverse(bySessionId, records, ById) && Inverse(bySessionKey, records, ByKey) && Inverse(byRunId, records, ByRun)
    ensures matches == StrongMatches(records, StrongIdents(p))
  {
    assert StrongMatches(records, []) == [];
    hide StrongMatches, SessionIds, StrongKeys, RunIds, Lift, Inverse, Separate, Strong, Tagged;
    var ids, keys, runs := SessionIds(p), StrongKeys(p), RunIds(p);
    ghost var sids, strong := Lift(ids, ById), Lift(keys, ByKey);
    LanesAreStrong(p);
    assert [] + sids == sids;
    matches := CollectLane(records, bySessionId, ids, [], ById, []);
    matches := CollectLane(records, bySessionKey, keys, sids, ByKey, matches);
    matches := CollectLane(records, byRunId, runs, sids + strong, ByRun, matches);
  }

  /** Looks the shared aliases among the keys up one after the other. */
  method CollectWeak(ghost records: Records, index: Index, keys: seq<string>) returns (collected: seq<RecordId>)
    requires Inverse(index, records, ByKey)
    ensures forall i, j :: 0 <= i < j < |collected| ==> collected[i] != collected[j]
    ensures forall r :: r in collected <==>
      (r in records && exists k :: k in keys && !IsStrongSessionKey(k) && k in records[r].sessionKeys)
  {
    collected := [];
    for i := 0 to |keys|
      invariant forall k, l :: 0 <= k < l < |collected| ==> collected[k] != collected[l]
      invariant forall r :: r in collected <==>
        (r in records && exists k :: k in keys[..i] && !IsStrongSessionKey(k) && k in records[r].sessionKeys)
    {
      assert keys[..i + 1] == keys[..i] + [keys[i]];
      if !IsStrongSessionKey(keys[i]) {
        collected := CollectIndexEntries(index, keys[i], collected);
      }
    }
    assert keys[..|keys|] == keys;
  }

  method MergeRouteObservations(routes: map<string, RouteObservation>, others: map<string, RouteObservation>)
    returns (merged: map<string, RouteObservation>)
    ensures merged == MergeRoutes(routes, others)
  {
    hide CombineObservation;
    merged := routes;
    var rest := others.Keys;
    while rest != {}
      invariant rest <= others.Keys
      invariant merged.Keys == routes.Keys + (others.Keys - rest)
      invariant forall k :: k in merged ==>
        merged[k] == if k in others.Keys - rest then CombineObservation(Lookup(routes, k), others[k]) else routes[k]
      decreases rest
    {
      var k :| k in rest;
      merged := merged[k := CombineObservation(Lookup(merged, k), others[k])];
      rest := rest - {k};
    }
  }

  method PruneExpiredRoutes(routes: map<string, RouteObservation>, ttl: int, now: int)
    returns (kept: map<string, RouteObservation>)
    ensures kept == map k | k in routes && now - routes[k].lastSeenAt <= ttl :: routes[k]
  {
    kept := routes;
    var rest := routes.Keys;
    while rest != {}
      invariant rest <= routes.Keys
      invariant kept == map k | k in routes && (k in rest || now - routes[k].lastSeenAt <= ttl) :: routes[k]
      decreases rest
    {
      var k :| k in rest;
      if now - routes[k].lastSeenAt > ttl {
        kept := kept - {k};
      }
      rest := rest - {k};
    }
  }

  function Distinct(values: seq<string>): set<string> {
    set v | v in values
  }

  // ---------------------------------------------------------------- record objects

  class SessionRecord {
    const recordId: RecordId
    const startTime: int
    var lastTouchedAt: int
    var agentId: Option<string>
    var parentAgentId: Option<string>
    var parentSessionId: Option<string>
    var parentSessionKey: Option<string>
    var sessionIds: set<string>
    var sessionKeys: set<string>
    var strongSessionKeys: set<string>
    var runIds: set<string>
    var routeObservations: map<string, RouteObservation>

    ghost function View(): Record
      reads this
    {
      Record(startTime, lastTouchedAt, agentId, parentAgentId, parentSessionId, parentSessionKey,
             sessionIds, sessionKeys, strongSessionKeys, runIds, routeObservations)
    }

    constructor (id: RecordId, now: int)
      ensures recordId == id && View() == NewRecord(now)
    {
      recordId := id;
      startTime, lastTouchedAt := now, now;
      agentId, parentAgentId, parentSessionId, parentSessionKey := None, None, None, None;
      sessionIds, sessionKeys, strongSessionKeys, runIds := {}, {}, {}, {};
      routeObservations := map[];
    }

    /** Adds what an observation says, and this record to the indexes under it. */
    method Observe(p: Observation, bySessionId: Index, bySessionKey: Index, byRunId: Index)
      returns (ids: Index, keys: Index, runs: Index)
      modifies this
      ensures View() == Extend(old(View()), p)
      ensures Extended(bySessionId, Distinct(SessionIds(p)), recordId, ids)
      ensures Extended(bySessionKey, Distinct(SessionKeysOf(p)), recordId, keys)
      ensures Extended(byRunId, Distinct(RunIds(p)), recordId, runs)
    {
      hide SessionIds, SessionKeysOf, StrongKeys, RunIds, ObserveRoute, Extended;
      ids, sessionIds := AddAll(bySessionId, sessionIds, Distinct(SessionIds(p)), recordId);
      keys, sessionKeys := AddAll(bySessionKey, sessionKeys, Distinct(SessionKeysOf(p)), recordId);
      strongSessionKeys := strongSessionKeys + Distinct(StrongKeys(p));
      runs, runIds := AddAll(byRunId, runIds, Distinct(RunIds(p)), recordId);
      routeObservations := ObserveRoute(routeObservations, p);
      ObserveScalars(p);
    }

    /** The fields an observation overrides where it says something. */
    method ObserveScalars(p: Observation)
      modifies this`agentId, this`parentAgentId, this`parentSessionId, this`parentSessionKey, this`lastTouchedAt
      ensures agentId == p.agentId.OrElse(old(agentId))
      ensures parentAgentId == p.parentAgentId.OrElse(old(parentAgentId))
      ensures parentSessionId == p.parentSessionId.OrElse(old(parentSessionId))
      ensures parentSessionKey == p.parentSessionKey.OrElse(old(parentSessionKey))
      ensures lastTouchedAt == p.now
    {
      lastTouchedAt := p.now;
      agentId := p.agentId.OrElse(agentId);
      parentAgentId := p.parentAgentId.OrElse(parentAgentId);
      parentSessionId := p.parentSessionId.OrElse(parentSessionId);
      parentSessionKey := p.parentSessionKey.OrElse(parentSessionKey);
    }

    /** The parsed session key to report for a request that this record answers. */
    method SelectParsed(p: Observation) returns (parsed: Option<ParsedSessionKey>)
      ensures SelectedParsed(View(), p, parsed)
    {
      var requested := RequestedParsed(p);
      if requested.Some? && Specific(requested.value) {
        return requested;
      }
      var preferred := PickPreferred();
      return preferred.OrElse(requested);
    }

    method PickPreferred() returns (parsed: Option<ParsedSessionKey>)
      ensures Preferred(View(), parsed)
    {
      var scoped := set k | k in sessionKeys && ThreadScoped(k);
      if scoped != {} {
        var k :| k in scoped;
        parsed := ParseSessionKey(k);
      } else if strongSessionKeys != {} {
        assert forall k :: k in sessionKeys ==> ThreadScoped(k) ==> k in scoped;
        var k :| k in strongSessionKeys;
        parsed := ParseSessionKey(k);
      } else {
        assert forall k :: k in sessionKeys ==> ThreadScoped(k) ==> k in scoped;
        parsed := None;
      }
    }

    /** Takes over everything another record holds, adding this record to the indexes. */
    method Absorb(record: SessionRecord, bySessionId: Index, bySessionKey: Index, byRunId: Index)
      returns (ids: Index, keys: Index, runs: Index)
      requires record != this
      modifies this
      ensures View() == MergeInto(old(View()), record.View())
      ensures Extended(bySessionId, record.sessionIds, recordId, ids)
      ensures Extended(bySessionKey, record.sessionKeys, recordId, keys)
      ensures Extended(byRunId, record.runIds, recordId, runs)
    {
      ids, sessionIds := AddAll(bySessionId, sessionIds, record.sessionIds, recordId);
      keys, sessionKeys := AddAll(bySessionKey, sessionKeys, record.sessionKeys, recordId);
      runs, runIds := AddAll(byRunId, runIds, record.runIds, recordId);
      strongSessionKeys := strongSessionKeys + record.strongSessionKeys;
      routeObservations := MergeRouteObservations(routeObservations, record.routeObservations);
      AbsorbScalars(record);
    }

    /** The fields that merging takes over only where this record has none. */
    method AbsorbScalars(record: SessionRecord)
      requires record != this
      modifies this`agentId, this`parentAgentId, this`parentSessionId, this`parentSessionKey, this`lastTouchedAt
      ensures agentId == old(agentId).OrElse(record.agentId)
      ensures parentAgentId == old(parentAgentId).OrElse(record.parentAgentId)
      ensures parentSessionId == old(parentSessionId).OrElse(record.parentSessionId)
      ensures parentSessionKey == old(parentSessionKey).OrElse(record.parentSessionKey)
      ensures lastTouchedAt == Max(old(lastTouchedAt), record.lastTouchedAt)
    {
      agentId := agentId.OrElse(record.agentId);
      parentAgentId := parentAgentId.OrElse(record.parentAgentId);
      parentSessionId := parentSessionId.OrElse(record.parentSessionId);
      parentSessionKey := parentSessionKey.OrElse(record.parentSessionKey);
      lastTouchedAt := Max(lastTouchedAt, record.lastTouchedAt);
    }
  }

  // ---------------------------------------------------------------- the tracker

  class SessionTracker {
    const routeTtlMs: int
    var records: map<RecordId, SessionRecord>
    var bySessionId: Index
    var bySessionKey: Index
    var byRunId: Index
    var nextRecordId: RecordId  // stands for the supply of fresh random record ids

    ghost function Records(): Records
      reads this, records.Values
    {
      map r | r in records :: records[r].View()
    }

    ghost function View(): Tracker
      reads this, records.Values
    {
      Tracker(Records(), nextRecordId)
    }

    /** Record objects sit under their own id and the indexes are the inverse of the records. */
    ghost predicate Indexed()
      reads this, records.Values
    {
      && (forall r :: r in records ==> records[r].recordId == r && r < nextRecordId)
      && Inverse(bySessionId, Records(), ById)
      && Inverse(bySessionKey, Records(), ByKey)
      && Inverse(byRunId, Records(), ByRun)
    }

    ghost predicate Valid()
      reads this, records.Values
    {
      Indexed() && Inv(Records())
    }

    constructor (ttl: int)
      ensures Valid() && View() == EMPTY && routeTtlMs == ttl
    {
      routeTtlMs := ttl;
      records, bySessionId, bySessionKey, byRunId := map[], map[], map[], map[];
      nextRecordId := 0;
    }

    method Clear()
      requires Valid()
      modifies this
      ensures Valid() && View() == old(View()).(records := map[])
    {
      hide Holds;
      records, bySessionId, bySessionKey, byRunId := map[], map[], map[], map[];
    }

    /** The matches of the strong lane, in lookup order. */
    method FindStrongMatches(p: Observation) returns (matches: seq<RecordId>)
      requires Valid()
      ensures matches == StrongMatches(Records(), StrongIdents(p))
    {
      matches := MatchStrong(Records(), bySessionId, bySessionKey, byRunId, p);
    }

    /** The records that carry one of the request's shared aliases. */
    method FindWeakMatches(p: Observation) returns (matches: seq<RecordId>)
      requires Valid()
      ensures AsSet(matches) == WeakMatches(Records(), p)
      ensures forall i, j :: 0 <= i < j < |matches| ==> matches[i] != matches[j]
    {
      ghost var rs := Records();
      matches := CollectWeak(rs, bySessionKey, SessionKeysOf(p));
      forall r ensures r in AsSet(matches) <==> r in WeakMatches(Records(), p) {
        assert r in AsSet(matches) <==> r in matches;
      }
    }

    /** Merges one record into another one, the indexes following. */
    method AbsorbInto(primary: RecordId, other: RecordId)
      requires Indexed() && primary in records && other in records && primary != other
      modifies this`bySessionId, this`bySessionKey, this`byRunId, records[primary]
      ensures Indexed()
      ensures Records() == old(Records()[primary := MergeInto(Records()[primary], Records()[other])])
    {
      hide MergeInto, Extended, Inverse;
      ghost var before := Records();
      ghost var i, k, r := bySessionId, bySessionKey, byRunId;
      var record := records[other];
      bySessionId, bySessionKey, byRunId := records[primary].Absorb(record, bySessionId, bySessionKey, byRunId);
      ghost var after := MergeInto(before[primary], before[other]);
      MergeHoldsByLane(before[primary], before[other]);
      assert before[other] == record.View();
      assert Records() == before[primary := after];
      ExtendedKeepsInverse(i, before, ById, record.sessionIds, primary, bySessionId, after);
      ExtendedKeepsInverse(k, before, ByKey, record.sessionKeys, primary, bySessionKey, after);
      ExtendedKeepsInverse(r, before, ByRun, record.runIds, primary, byRunId, after);
    }

    /** Deletes a record and its index entries; a record that took it over keeps them. */
    method RemoveRecord(id: RecordId, preserve: Option<RecordId>)
      requires Indexed() && id in records
      requires preserve.Some? ==> preserve.value in records && preserve.value != id
      requires preserve.Some? ==> forall x :: Holds(Records()[id], x) ==> Holds(Records()[preserve.value], x)
      modifies this`records, this`bySessionId, this`bySessionKey, this`byRunId
      ensures Indexed() && records == old(records) - {id}
      ensures Records() == old(Records()) - {id}
    {
      ghost var before := Records();
      ghost var i, k, r := bySessionId, bySessionKey, byRunId;
      var record := records[id];
      assert before[id] == record.View();
      records := records - {id};
      bySessionId := RemoveAll(bySessionId, record.sessionIds, id, preserve);
      bySessionKey := RemoveAll(bySessionKey, record.sessionKeys, id, preserve);
      byRunId := RemoveAll(byRunId, record.runIds, id, preserve);
      assert Records() == before - {id};
      StrippedKeepsInverse(i, before, ById, record.sessionIds, id, preserve, bySessionId);
      StrippedKeepsInverse(k, before, ByKey, record.sessionKeys, id, preserve, bySessionKey);
      StrippedKeepsInverse(r, before, ByRun, record.runIds, id, preserve, byRunId);
    }

    /** Merges every other match into the first one. */
    method AbsorbOthers(matches: seq<RecordId>)
      requires Indexed() && matches != []
      requires forall i :: 0 <= i < |matches| ==> matches[i] in records
      requires forall i, j :: 0 <= i < j < |matches| ==> matches[i] != matches[j]
      modifies this`bySessionId, this`bySessionKey, this`byRunId, records[matches[0]]
      ensures Indexed()
      ensures Records() == old(Records()[matches[0] := MergeRest(Records()[matches[0]], Records(), matches[1..])])
    {
      ghost var before, rest := Records(), matches[1..];
      for j := 0 to |matches| - 1
        invariant Indexed()
        invariant Records() == before[matches[0] := MergeRest(before[matches[0]], before, rest[..j])]
      {
        AbsorbStep(before, matches, j);
        AbsorbInto(matches[0], matches[j + 1]);
      }
      assert rest[..|rest|] == rest;
    }

    /** Removes the records whose contents the heir has taken over. */
    method RemoveMerged(merged: seq<RecordId>, heir: RecordId)
      requires Indexed() && heir in records && heir !in merged
      requires forall i :: 0 <= i < |merged| ==> merged[i] in records
      requires forall i, j :: 0 <= i < j < |merged| ==> merged[i] != merged[j]
      requires forall i, x :: 0 <= i < |merged| && Holds(Records()[merged[i]], x) ==> Holds(Records()[heir], x)
      modifies this`records, this`bySessionId, this`bySessionKey, this`byRunId
      ensures Indexed() && Records() == old(Records()) - AsSet(merged)
      ensures records == old(records) - AsSet(merged)
    {
      ghost var before := Records();
      for j := 0 to |merged|
        invariant records == old(records) - AsSet(merged[..j])
        invariant Indexed() && Records() == before - AsSet(merged[..j])
      {
        TakeOne(merged, j);
        assert heir !in AsSet(merged[..j]);
        RemoveRecord(merged[j], Some(heir));
      }
      assert merged[..|merged|] == merged;
    }

    method MergeRecords(matches: seq<RecordId>)
      requires Indexed() && matches != []
      requires forall i :: 0 <= i < |matches| ==> matches[i] in records
      requires forall i, j :: 0 <= i < j < |matches| ==> matches[i] != matches[j]
      modifies this`records, this`bySessionId, this`bySessionKey, this`byRunId, records[matches[0]]
      ensures Indexed() && Records() == MergeAll(old(Records()), matches)
      ensures records == old(records) - AsSet(matches[1..])
    {
      ghost var before, rest := Records(), matches[1..];
      MergedByHeir(before, matches);
      AbsorbOthers(matches);
      RemoveMerged(matches[1..], matches[0]);
    }

    /** Finds the record a request denotes, merging when several records match strongly. */
    method ResolveUniqueRecord(p: Observation) returns (resolution: Resolution)
      requires Valid()
      modifies this`records, this`bySessionId, this`bySessionKey, this`byRunId, records.Values
      ensures Valid() && records.Values <= old(records.Values)
      ensures Records() == Resolve(old(Records()), p).0 && resolution == Resolve(old(Records()), p).1
    {
      hide Resolve, StrongMatches, WeakMatches, StrongIdents, MergeAll;
      ghost var before := Records();
      ResolvedInv(before, p);
      var strong := FindStrongMatches(p);
      if strong != [] {
        ResolveStrongly(before, p);
        MergeMatches(strong);
        resolution := Resolved(strong[0]);
      } else {
        resolution := ResolveByAlias(p);
      }
    }

    /** A single match is the record itself; several are merged. */
    method MergeMatches(matches: seq<RecordId>)
      requires Indexed() && matches != []
      requires forall i :: 0 <= i < |matches| ==> matches[i] in records
      requires forall i, j :: 0 <= i < j < |matches| ==> matches[i] != matches[j]
      modifies this`records, this`bySessionId, this`bySessionKey, this`byRunId, records.Values
      ensures Indexed() && Records() == MergeAll(old(Records()), matches)
      ensures records == old(records) - AsSet(matches[1..])
    {
      if |matches| > 1 {
        MergeRecords(matches);
      } else {
        assert Records() == MergeAll(Records(), matches);
      }
    }

    /** Without a strong match, one weak match resolves the request and several leave it ambiguous. */
    method ResolveByAlias(p: Observation) returns (resolution: Resolution)
      requires Valid() && StrongMatches(Records(), StrongIdents(p)) == []
      ensures Resolve(Records(), p) == (Records(), resolution)
    {
      hide Resolve, WeakMatches, StrongIdents, StrongMatches, Inverse, Inv;
      var weak := FindWeakMatches(p);
      DistinctSize(weak);
      ResolveWeakly(Records(), p);
      if |weak| > 1 {
        resolution := Ambiguous(set i | 0 <= i < |weak| :: weak[i]);
      } else if |weak| == 1 {
        assert AsSet(weak) == {weak[0]};
        resolution := Resolved(weak[0]);
      } else {
        resolution := Unresolved;
      }
    }

    // -------------------------------------------------------------- observing

    /** Records everything an observation says under a record. */
    method Record(id: RecordId, p: Observation)
      requires Indexed() && id in records
      modifies this`bySessionId, this`bySessionKey, this`byRunId, records[id]
      ensures Indexed() && Records() == old(Records()[id := Extend(Records()[id], p)])
    {
      hide SessionIds, SessionKeysOf, RunIds, Extend, Extended, Inverse;
      ghost var before := Records();
      ghost var i, k, r := bySessionId, bySessionKey, byRunId;
      var record := records[id];
      bySessionId, bySessionKey, byRunId := record.Observe(p, bySessionId, bySessionKey, byRunId);
      ghost var after := Extend(before[id], p);
      ExtendHoldsByLane(before[id], p);
      assert Records() == before[id := after];
      ExtendedKeepsInverse(i, before, ById, Distinct(SessionIds(p)), id, bySessionId, after);
      ExtendedKeepsInverse(k, before, ByKey, Distinct(SessionKeysOf(p)), id, bySessionKey, after);
      ExtendedKeepsInverse(r, before, ByRun, Distinct(RunIds(p)), id, byRunId, after);
    }

    /** A new record, not yet in any index. */
    method CreateRecord(now: int) returns (id: RecordId)
      requires Indexed()
      modifies this`records, this`nextRecordId
      ensures id == old(nextRecordId) && nextRecordId == id + 1
      ensures id in records && records == old(records)[id := records[id]] && fresh(records[id]) && id !in old(records)
      ensures Indexed() && Records() == old(Records())[id := NewRecord(now)]
    {
      hide Inverse;
      id := nextRecordId;
      ghost var before := Records();
      assert id !in before;
      var record := new SessionRecord(id, now);
      records := records[id := record];
      nextRecordId := id + 1;
      assert Records() == before[id := NewRecord(now)];
      NewKeepsInverse(bySessionId, before, ById, id, now);
      NewKeepsInverse(bySessionKey, before, ByKey, id, now);
      NewKeepsInverse(byRunId, before, ByRun, id, now);
    }

    /** Starting or touching a session. */
    method ObserveSession(p: Observation)
      requires Valid()
      modifies this, records.Values
      ensures Valid() && View() == Observe(old(View()), p)
    {
      hide Resolve, Extend, HasStrongIdentifiers, SessionRecords.Observe, Considered, Inv, Inverse;
      ghost var t := View();
      ObserveKeepsInv(t, p);
      ObserveCases(t, p);
      KnownRun(t.records, byRunId, p);
      if !HasStrongIdentifiers(p) && !(p.runId.Some? && p.runId.value != "" && p.runId.value in byRunId) {
        return;
      }
      var resolution := ResolveUniqueRecord(p);
      match resolution
      case Ambiguous(_) =>
        assert View() == SessionRecords.Observe(t, p);
      case Resolved(id) =>
        Record(id, p);
        assert View() == SessionRecords.Observe(t, p);
      case Unresolved =>
        var id := CreateRecord(p.now);
        Record(id, p);
        assert View() == SessionRecords.Observe(t, p);
    }

    /** Resolves the identifier, which may merge records, and removes what it resolves to. */
    method EndSession(identifier: string, now: int) returns (ended: Option<EndedSession>)
      requires Valid()
      modifies this`records, this`bySessionId, this`bySessionKey, this`byRunId, records.Values
      ensures Valid() && View() == SessionRecords.EndSession(old(View()), identifier)
      ensures ended.Some? <==> Resolve(old(Records()), LookupRequest(identifier)).1.Resolved?
      ensures ended.Some? ==>
        var (after, resolution) := Resolve(old(Records()), LookupRequest(identifier));
        var record := after[resolution.id];
        ended.value == EndedSession(now - record.startTime, record.agentId, record.parentSessionId)
    {
      hide Resolve, Inverse, LookupRequest;
      ghost var t, request := View(), LookupRequest(identifier);
      StepKeepsInv(t, Ended(identifier));
      ResolvedIsLive(t.records, request);
      var resolution := ResolveUniqueRecord(LookupRequest(identifier));
      ended := None;
      if resolution.Resolved? {
        var record := records[resolution.id];
        assert Records()[resolution.id] == record.View();
        ended := Some(EndedSession(now - record.startTime, record.agentId, record.parentSessionId));
        RemoveRecord(resolution.id, None);
      }
    }

    /** Drops expired routes from the given records. */
    method PruneMatches(matches: set<RecordId>, now: int)
      requires Indexed() && matches <= records.Keys
      modifies records.Values
      ensures Indexed() && Records() == PruneMatched(old(Records()), matches, routeTtlMs, now)
    {
      ghost var before := Records();
      var rest := matches;
      while rest != {}
        invariant rest <= matches
        invariant Indexed() && Records() == PruneMatched(before, matches - rest, routeTtlMs, now)
        decreases rest
      {
        var id :| id in rest;
        PruneOne(id, now);
        PruneOneMore(before, matches - rest, id, routeTtlMs, now);
        assert matches - (rest - {id}) == matches - rest + {id};
        rest := rest - {id};
      }
      assert matches - {} == matches;
      assert PruneMatched(before, {}, routeTtlMs, now) == before;
    }

    method PruneOne(id: RecordId, now: int)
      requires Indexed() && id in records
      modifies records[id]
      ensures Indexed() && Records() == old(Records()[id := PruneRoutes(Records()[id], routeTtlMs, now)])
    {
      ghost var before := Records();
      records[id].routeObservations := PruneExpiredRoutes(records[id].routeObservations, routeTtlMs, now);
      assert Records() == before[id := PruneRoutes(before[id], routeTtlMs, now)];
      SameHoldsKeepInverse(bySessionId, before, Records(), ById);
      SameHoldsKeepInverse(bySessionKey, before, Records(), ByKey);
      SameHoldsKeepInverse(byRunId, before, Records(), ByRun);
    }

    /** Who and where a request's session is, as far as the tracker can tell. */
    method GetSessionProvenance(p: Observation) returns (snapshot: Snapshot)
      requires Valid()
      modifies this`records, this`bySessionId, this`bySessionKey, this`byRunId, records.Values
      ensures Valid() && View() == QueryProvenance(old(View()), p, routeTtlMs)
      ensures Describes(snapshot, Records(), Resolve(old(Records()), p).1, p)
    {
      hide Resolve, Inverse, Inv, MergeAll, PruneRoutes, RequestedParsed, PruneMatched, StrongMatches;
      ghost var t := View();
      QueryKeepsInv(t, p, routeTtlMs);
      ResolvedIsLive(t.records, p);
      var resolution := ResolveUniqueRecord(p);
      match resolution
      case Unresolved =>
        snapshot := Snapshot(None, None, RequestedParsed(p), Unavailable);
      case Ambiguous(matches) =>
        AmbiguousAreLive(t.records, p);
        PruneMatches(matches, p.now);
        snapshot := Snapshot(None, None, RequestedParsed(p), AmbiguousRoute);
      case Resolved(id) =>
        PruneMatches({id}, p.now);
        snapshot := DescribeRecord(id, p);
    }

    /** The snapshot for a request answered by one record. */
    method DescribeRecord(id: RecordId, p: Observation) returns (snapshot: Snapshot)
      requires id in records
      ensures Describes(snapshot, Records(), Resolved(id), p)
    {
      hide SelectedParsed;
      assert Records()[id] == records[id].View();
      var parsed := records[id].SelectParsed(p);
      var candidates := SelectRouteCandidates(records[id].routeObservations, p.runId);
      if |candidates| == 1 {
        var k :| k in candidates;
        snapshot := Snapshot(Some(id), Some(candidates[k].route), parsed, ResolvedRoute);
      } else {
        snapshot := Snapshot(Some(id), None, parsed, if |candidates| > 1 then AmbiguousRoute else Unavailable);
      }
    }
  }

  lemma NewKeepsInverse(index: Index, records: Records, lane: Lane, id: RecordId, now: int)
    requires Inverse(index, records, lane) && id !in records
    ensures Inverse(index, records[id := NewRecord(now)], lane)
  {
    forall s, r ensures r in Entries(index, s) <==>
      r in records[id := NewRecord(now)] && Holds(records[id := NewRecord(now)][r], Tagged(lane, s))
    {
      assert r in Entries(index, s) <==> r in records && Holds(records[r], Tagged(lane, s));
    }
  }

  datatype EndedSession = EndedSession(durationMs: int, agentId: Option<string>, parentSessionId: Option<string>)

  lemma SameHoldsKeepInverse(index: Index, before: Records, after: Records, lane: Lane)
    requires Inverse(index, before, lane) && after.Keys == before.Keys
    requires forall r, x :: r in before ==> (Holds(after[r], x) <==> Holds(before[r], x))
    ensures Inverse(index, after, lane)
  {
    forall s, r ensures r in Entries(index, s) <==> r in after && Holds(after[r], Tagged(lane, s)) {
      assert r in Entries(index, s) <==> r in before && Holds(before[r], Tagged(lane, s));
    }
  }

  lemma PruneOneMore(before: Records, done: set<RecordId>, id: RecordId, ttl: int, now: int)
    requires id in before && id !in done
    ensures var soFar := PruneMatched(before, done, ttl, now);
      soFar[id := PruneRoutes(soFar[id], ttl, now)] == PruneMatched(before, done + {id}, ttl, now)
  {
    hide PruneRoutes;
  }

  lemma AmbiguousAreLive(records: Records, p: Observation)
    ensures Resolve(records, p).1.Ambiguous? ==> Resolve(records, p).1.matches <= Resolve(records, p).0.Keys
  {
  }

  lemma ObserveCases(t: Tracker, p: Observation)
    ensures !Considered(t.records, p) ==> Observe(t, p) == t
    ensures Considered(t.records, p) ==>
      var after, resolution := Resolve(t.records, p).0, Resolve(t.records, p).1;
      match resolution
      case Ambiguous(_) => Observe(t, p) == t.(records := after)
      case Resolved(r) => r in after && Observe(t, p) == t.(records := after[r := Extend(after[r], p)])
      case Unresolved =>
        var created: Records := after[t.nextId := NewRecord(p.now)];
        Observe(t, p) == Tracker(created[t.nextId := Extend(NewRecord(p.now), p)], t.nextId + 1)
  {
    hide Resolve, Extend, Considered;
    ResolvedIsLive(t.records, p);
    var after := Resolve(t.records, p).0;
    var created: Records := after[t.nextId := NewRecord(p.now)];
    assert created[t.nextId := Extend(NewRecord(p.now), p)] == after[t.nextId := Extend(NewRecord(p.now), p)];
  }

  lemma MergeHoldsByLane(a: Record, b: Record)
    ensures var m := MergeInto(a, b);
      && (forall s :: Holds(m, Tagged(ById, s)) <==> Holds(a, Tagged(ById, s)) || s in b.sessionIds)
      && (forall s :: Holds(m, Tagged(ByKey, s)) <==> Holds(a, Tagged(ByKey, s)) || s in b.sessionKeys)
      && (forall s :: Holds(m, Tagged(ByRun, s)) <==> Holds(a, Tagged(ByRun, s)) || s in b.runIds)
  {
  }

  lemma ExtendHoldsByLane(record: Record, p: Observation)
    ensures var after := Extend(record, p);
      && (forall s :: Holds(after, Tagged(ById, s)) <==> Holds(record, Tagged(ById, s)) || s in Distinct(SessionIds(p)))
      && (forall s :: Holds(after, Tagged(ByKey, s)) <==> Holds(record, Tagged(ByKey, s)) || s in Distinct(SessionKeysOf(p)))
      && (forall s :: Holds(after, Tagged(ByRun, s)) <==> Holds(record, Tagged(ByRun, s)) || s in Distinct(RunIds(p)))
  {
  }

  lemma KnownRun(records: Records, index: Index, p: Observation)
    requires Inverse(index, records, ByRun)
    ensures Considered(records, p) <==>
      HasStrongIdentifiers(p) || (p.runId.Some? && p.runId.value != "" && p.runId.value in index)
  {
    if p.runId.Some? {
      var s := p.runId.value;
      if s in index {
        assert index[s] != {};
        var r :| r in index[s];
        assert r in Entries(index, s) && Holds(records[r], Tagged(ByRun, s));
      }
      if Owned(records, Run(s)) {
        var r :| r in records && Holds(records[r], Run(s));
        assert Holds(records[r], Tagged(ByRun, s));
        assert r in Entries(index, s);
      }
    }
  }

  lemma ResolvedIsLive(records: Records, p: Observation)
    ensures Resolve(records, p).1.Resolved? ==> Resolve(records, p).1.id in Resolve(records, p).0
  {
    ResolveShape(records, p);
  }

  lemma AbsorbStep(before: Records, matches: seq<RecordId>, j: nat)
    requires matches != [] && forall i :: 0 <= i < |matches| ==> matches[i] in before
    requires forall i, k :: 0 <= i < k < |matches| ==> matches[i] != matches[k]
    requires j < |matches| - 1
    ensures var rest, first, next := matches[1..], matches[0], matches[j + 1];
      var now := before[first := MergeRest(before[first], before, rest[..j])];
      && first != next && next in now
      && now[first := MergeInto(now[first], now[next])] == before[first := MergeRest(before[first], before, rest[..j + 1])]
  {
    var rest := matches[1..];
    assert rest[..j + 1][..j] == rest[..j] && rest[j] == matches[j + 1];
  }

  lemma MergedByHeir(before: Records, matches: seq<RecordId>)
    requires matches != [] && forall i :: 0 <= i < |matches| ==> matches[i] in before
    requires forall i, j :: 0 <= i < j < |matches| ==> matches[i] != matches[j]
    ensures var rest, m := matches[1..], MergeRest(before[matches[0]], before, matches[1..]);
      var absorbed := before[matches[0] := m];
      && (forall i, x :: 0 <= i < |rest| && Holds(absorbed[rest[i]], x) ==> Holds(absorbed[matches[0]], x))
      && absorbed - AsSet(rest) == MergeAll(before, matches)
  {
    var rest := matches[1..];
    MergeRestHolds(before[matches[0]], before, rest);
    assert forall i :: 0 <= i < |rest| ==> rest[i] == matches[i + 1];
  }

  lemma ResolveStrongly(records: Records, p: Observation)
    ensures var ms := StrongMatches(records, StrongIdents(p));
      && (ms != [] ==> Resolve(records, p) == (MergeAll(records, ms), Resolved(ms[0])))
      && (|ms| == 1 ==> MergeAll(records, ms) == records)
  {
    var ms := StrongMatches(records, StrongIdents(p));
    hide StrongMatches, StrongIdents, WeakMatches;
    if |ms| == 1 {
      MergeAlone(records, ms[0]);
      assert ms == [ms[0]];
    }
    hide MergeAll;
  }

  lemma MergeAlone(records: Records, r: RecordId)
    requires r in records
    ensures MergeAll(records, [r]) == records
  {
    assert [r][1..] == [];
  }

  lemma ResolveWeakly(records: Records, p: Observation)
    requires StrongMatches(records, StrongIdents(p)) == []
    ensures var weak := WeakMatches(records, p);
      && (|weak| > 1 ==> Resolve(records, p) == (records, Ambiguous(weak)))
      && (forall r {:trigger Resolved(r)} :: weak == {r} ==> Resolve(records, p) == (records, Resolved(r)))
      && (weak == {} ==> Resolve(records, p) == (records, Unresolved))
  {
  }

  lemma TakeOne(ids: seq<RecordId>, j: nat)
    requires j < |ids| && forall i, k :: 0 <= i < k < |ids| ==> ids[i] != ids[k]
    ensures AsSet(ids[..j + 1]) == AsSet(ids[..j]) + {ids[j]} && ids[j] !in AsSet(ids[..j])
  {
    assert forall i :: 0 <= i < j ==> ids[..j + 1][i] == ids[..j][i];
    assert ids[..j + 1][j] == ids[j];
  }
}
