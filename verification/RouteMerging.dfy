/**
 * What merging session records makes of what they hold besides identifiers: earliest start and
 * latest touch, the first agent known, and the routes with their times, runs and fields.
 */
module RouteMerging {
  import opened Options
  import opened SessionRecords
  import opened SessionRuns
  import opened RouteHistory

  /** The records that a resolution brings together, in order. */
  function Listed(records: Records, ms: seq<RecordId>): (rs: seq<Record>)
    requires forall i :: 0 <= i < |ms| ==> ms[i] in records
    ensures |rs| == |ms| && forall i :: 0 <= i < |ms| ==> rs[i] == records[ms[i]]
  {
    seq(|ms|, i requires 0 <= i < |ms| => records[ms[i]])
  }

  // ---------------------------------------------------------------- first, last and extreme values

  ghost predicate FirstDefined<T>(value: Option<T>, all: seq<Option<T>>) {
    if value.None? then forall i :: 0 <= i < |all| ==> all[i] == None
    else exists i :: 0 <= i < |all| && all[i] == value && forall j :: 0 <= j < i ==> all[j] == None
  }

  ghost predicate LastDefined<T>(value: Option<T>, all: seq<Option<T>>) {
    if value.None? then forall i :: 0 <= i < |all| ==> all[i] == None
    else exists i :: 0 <= i < |all| && all[i] == value && forall j :: i < j < |all| ==> all[j] == None
  }

  ghost predicate Highest(value: int, all: seq<int>) {
    value in all && forall i :: 0 <= i < |all| ==> all[i] <= value
  }

  ghost predicate Lowest(value: int, all: seq<int>) {
    value in all && forall i :: 0 <= i < |all| ==> value <= all[i]
  }

  /** One of the times, and none of them is later; an undefined one counts as zero. */
  ghost predicate Latest(value: Option<int>, all: seq<Option<int>>) {
    (value.Some? ==> value in all) && forall i :: 0 <= i < |all| ==> all[i].GetOr(0) <= value.GetOr(0)
  }

  lemma LatestOfMore(value: Option<int>, all: seq<Option<int>>, next: Option<int>)
    requires Latest(value, all)
    ensures Latest(LatestOf(value, next), all + [next])
  {
    var more := all + [next];
    assert more[|all|] == next && forall i :: 0 <= i < |all| ==> more[i] == all[i];
    if value.Some? {
      var i :| 0 <= i < |all| && all[i] == value;
      assert more[i] == value;
    }
  }

  lemma FirstOfMore<T>(value: Option<T>, all: seq<Option<T>>, next: Option<T>)
    requires FirstDefined(value, all)
    ensures FirstDefined(if value.Some? then value else next, all + [next])
  {
    var more := all + [next];
    assert more[|all|] == next && forall i :: 0 <= i < |all| ==> more[i] == all[i];
  }

  lemma LastOfMore<T>(value: Option<T>, all: seq<Option<T>>, next: Option<T>)
    requires LastDefined(value, all)
    ensures LastDefined(if next.Some? then next else value, all + [next])
  {
    var more := all + [next];
    assert more[|all|] == next && forall i :: 0 <= i < |all| ==> more[i] == all[i];
  }

  lemma HighestOfMore(value: int, all: seq<int>, next: int)
    requires Highest(value, all)
    ensures Highest(if next > value then next else value, all + [next])
  {
    var more := all + [next];
    assert more[|all|] == next && forall i :: 0 <= i < |all| ==> more[i] == all[i];
    var i :| 0 <= i < |all| && all[i] == value;
    assert more[i] == value;
  }

  lemma LowestOfMore(value: int, all: seq<int>, next: int)
    requires Lowest(value, all)
    ensures Lowest(if next < value then next else value, all + [next])
  {
    var more := all + [next];
    assert more[|all|] == next && forall i :: 0 <= i < |all| ==> more[i] == all[i];
    var i :| 0 <= i < |all| && all[i] == value;
    assert more[i] == value;
  }

  // ---------------------------------------------------------------- the merged record

  function Agents(rs: seq<Record>): seq<Option<string>> { seq(|rs|, i requires 0 <= i < |rs| => rs[i].agentId) }
  function ParentAgents(rs: seq<Record>): seq<Option<string>> { seq(|rs|, i requires 0 <= i < |rs| => rs[i].parentAgentId) }
  function ParentIds(rs: seq<Record>): seq<Option<string>> { seq(|rs|, i requires 0 <= i < |rs| => rs[i].parentSessionId) }
  function ParentKeys(rs: seq<Record>): seq<Option<string>> { seq(|rs|, i requires 0 <= i < |rs| => rs[i].parentSessionKey) }
  function Touches(rs: seq<Record>): seq<int> { seq(|rs|, i requires 0 <= i < |rs| => rs[i].lastTouchedAt) }

  /** The first record's start, the latest touch, and the first known agent and parent. */
  ghost predicate MergesWho(m: Record, rs: seq<Record>) {
    && rs != [] && m.startTime == rs[0].startTime && Highest(m.lastTouchedAt, Touches(rs))
    && FirstDefined(m.agentId, Agents(rs)) && FirstDefined(m.parentAgentId, ParentAgents(rs))
    && FirstDefined(m.parentSessionId, ParentIds(rs)) && FirstDefined(m.parentSessionKey, ParentKeys(rs))
  }

  lemma WhoOfOne(r: Record)
    ensures MergesWho(r, [r])
  {
    assert Touches([r])[0] == r.lastTouchedAt && Agents([r])[0] == r.agentId && ParentAgents([r])[0] == r.parentAgentId;
    assert ParentIds([r])[0] == r.parentSessionId && ParentKeys([r])[0] == r.parentSessionKey;
  }

  lemma WhoOfMore(m: Record, rs: seq<Record>, r: Record)
    requires MergesWho(m, rs)
    ensures MergesWho(MergeInto(m, r), rs + [r])
  {
    assert Touches(rs + [r]) == Touches(rs) + [r.lastTouchedAt] && Agents(rs + [r]) == Agents(rs) + [r.agentId];
    assert ParentAgents(rs + [r]) == ParentAgents(rs) + [r.parentAgentId] && ParentIds(rs + [r]) == ParentIds(rs) + [r.parentSessionId];
    assert ParentKeys(rs + [r]) == ParentKeys(rs) + [r.parentSessionKey];
    hide FirstDefined, Highest, Touches, Agents, ParentAgents, ParentIds, ParentKeys, MergeRoutes;
    HighestOfMore(m.lastTouchedAt, Touches(rs), r.lastTouchedAt);
    FirstOfMore(m.agentId, Agents(rs), r.agentId);
    FirstOfMore(m.parentAgentId, ParentAgents(rs), r.parentAgentId);
    FirstOfMore(m.parentSessionId, ParentIds(rs), r.parentSessionId);
    FirstOfMore(m.parentSessionKey, ParentKeys(rs), r.parentSessionKey);
  }

  // ---------------------------------------------------------------- one route of the merged record

  /** The entries that the records have under the key, in order. */
  function EntriesAt(rs: seq<Record>, k: string): seq<RouteObservation> {
    if rs == [] then []
    else
      var last := rs[|rs| - 1].routes;
      EntriesAt(rs[..|rs| - 1], k) + if k in last then [last[k]] else []
  }

  function Firsts(es: seq<RouteObservation>): seq<int> { seq(|es|, i requires 0 <= i < |es| => es[i].firstSeenAt) }
  function Lasts(es: seq<RouteObservation>): seq<int> { seq(|es|, i requires 0 <= i < |es| => es[i].lastSeenAt) }
  function Inbounds(es: seq<RouteObservation>): seq<Option<int>> { seq(|es|, i requires 0 <= i < |es| => es[i].lastInboundAt) }
  function Outbounds(es: seq<RouteObservation>): seq<Option<int>> { seq(|es|, i requires 0 <= i < |es| => es[i].lastOutboundAt) }
  function Values(es: seq<RouteObservation>, f: RouteField): seq<Option<string>> {
    seq(|es|, i requires 0 <= i < |es| => FieldOf(es[i].route, f))
  }

  /** Seen from the first to the last time by all their runs, each field being the last one known. */
  ghost predicate Combines(e: RouteObservation, es: seq<RouteObservation>) {
    && Lowest(e.firstSeenAt, Firsts(es)) && Highest(e.lastSeenAt, Lasts(es))
    && Latest(e.lastInboundAt, Inbounds(es)) && Latest(e.lastOutboundAt, Outbounds(es))
    && (forall x :: x in e.runIds <==> exists i :: 0 <= i < |es| && x in es[i].runIds)
    && (forall f :: LastDefined(FieldOf(e.route, f), Values(es, f)))
  }

  lemma CombinesOne(e: RouteObservation)
    ensures Combines(e, [e])
  {
    assert Firsts([e])[0] == e.firstSeenAt && Lasts([e])[0] == e.lastSeenAt;
    assert Inbounds([e])[0] == e.lastInboundAt && Outbounds([e])[0] == e.lastOutboundAt;
    forall f ensures LastDefined(FieldOf(e.route, f), Values([e], f)) {
      assert Values([e], f)[0] == FieldOf(e.route, f);
    }
  }

  lemma CombinedField(a: Route, b: Route, f: RouteField)
    ensures FieldOf(MergeRouteMetadata(Some(a), Some(b)).GetOr(b), f) == if FieldOf(b, f).Some? then FieldOf(b, f) else FieldOf(a, f)
  {
    OverlaidField(a, b);
    SomeFieldIsNotEmpty(Overlaid(a, b));
    hide FieldOf, Overlaid;
  }

  lemma CombinesMore(e: RouteObservation, es: seq<RouteObservation>, o: RouteObservation)
    requires Combines(e, es)
    ensures Combines(CombineObservation(Some(e), o), es + [o])
  {
    var more := es + [o];
    assert Firsts(more) == Firsts(es) + [o.firstSeenAt] && Lasts(more) == Lasts(es) + [o.lastSeenAt];
    assert Inbounds(more) == Inbounds(es) + [o.lastInboundAt] && Outbounds(more) == Outbounds(es) + [o.lastOutboundAt];
    LowestOfMore(e.firstSeenAt, Firsts(es), o.firstSeenAt);
    LatestOfMore(e.lastInboundAt, Inbounds(es), o.lastInboundAt);
    LatestOfMore(e.lastOutboundAt, Outbounds(es), o.lastOutboundAt);
    HighestOfMore(e.lastSeenAt, Lasts(es), o.lastSeenAt);
    forall x ensures x in e.runIds + o.runIds <==> exists i :: 0 <= i < |more| && x in more[i].runIds {
      RunsOfMore(e, es, o, x);
    }
    forall f ensures LastDefined(FieldOf(CombineObservation(Some(e), o).route, f), Values(more, f)) {
      CombinedField(e.route, o.route, f);
      assert Values(more, f) == Values(es, f) + [FieldOf(o.route, f)];
      LastOfMore(FieldOf(e.route, f), Values(es, f), FieldOf(o.route, f));
    }
    hide Firsts, Lasts, Inbounds, Outbounds, Values, Lowest, Highest, Latest, LastDefined, MergeRouteMetadata, LatestOf;
  }

  lemma RunsOfMore(e: RouteObservation, es: seq<RouteObservation>, o: RouteObservation, x: string)
    requires forall y :: y in e.runIds <==> exists i :: 0 <= i < |es| && y in es[i].runIds
    ensures var more := es + [o]; x in e.runIds + o.runIds <==> exists i :: 0 <= i < |more| && x in more[i].runIds
  {
    var more := es + [o];
    assert more[|es|] == o && forall i :: 0 <= i < |es| ==> more[i] == es[i];
    if x in e.runIds {
      var i :| 0 <= i < |es| && x in es[i].runIds;
      assert x in more[i].runIds;
    }
  }

  lemma CombinesNone(o: RouteObservation)
    ensures Combines(CombineObservation(None, o), [o])
  {
    var e := CombineObservation(None, o);
    assert Firsts([o])[0] == o.firstSeenAt && Lasts([o])[0] == o.lastSeenAt;
    assert Inbounds([o])[0] == o.lastInboundAt && Outbounds([o])[0] == o.lastOutboundAt;
    OverlaidField(EMPTY_ROUTE, o.route);
    SomeFieldIsNotEmpty(Overlaid(EMPTY_ROUTE, o.route));
    SameRoute(Overlaid(EMPTY_ROUTE, o.route), o.route);
    forall f ensures LastDefined(FieldOf(e.route, f), Values([o], f)) {
      assert Values([o], f)[0] == FieldOf(o.route, f);
      assert FieldOf(e.route, f) == FieldOf(o.route, f);
    }
  }

  /** The merged record has a route under exactly the keys of the records, combining their entries. */
  ghost predicate MergesRoutes(m: Record, rs: seq<Record>) {
    forall k :: (k in m.routes <==> EntriesAt(rs, k) != []) && (k in m.routes ==> Combines(m.routes[k], EntriesAt(rs, k)))
  }

  lemma EntriesOfMore(rs: seq<Record>, r: Record, k: string)
    ensures EntriesAt(rs + [r], k) == EntriesAt(rs, k) + if k in r.routes then [r.routes[k]] else []
  {
    assert (rs + [r])[..|rs|] == rs;
  }

  lemma RoutesOfOne(r: Record)
    ensures MergesRoutes(r, [r])
  {
    forall k ensures (k in r.routes <==> EntriesAt([r], k) != []) && (k in r.routes ==> Combines(r.routes[k], EntriesAt([r], k))) {
      EntriesOfMore([], r, k);
      assert [] + [r] == [r] && EntriesAt([], k) == [];
      if k in r.routes {
        assert EntriesAt([r], k) == [r.routes[k]];
        CombinesOne(r.routes[k]);
      }
    }
  }

  lemma RoutesOfMore(m: Record, rs: seq<Record>, r: Record)
    requires MergesRoutes(m, rs)
    ensures MergesRoutes(MergeInto(m, r), rs + [r])
  {
    hide Combines, CombineObservation, EntriesAt;
    var after := MergeInto(m, r);
    forall k
      ensures (k in after.routes <==> EntriesAt(rs + [r], k) != []) && (k in after.routes ==> Combines(after.routes[k], EntriesAt(rs + [r], k)))
    {
      EntriesOfMore(rs, r, k);
      if k in r.routes {
        if k in m.routes {
          CombinesMore(m.routes[k], EntriesAt(rs, k), r.routes[k]);
        } else {
          CombinesNone(r.routes[k]);
          assert EntriesAt(rs + [r], k) == [r.routes[k]];
        }
      } else {
        assert EntriesAt(rs + [r], k) == EntriesAt(rs, k);
      }
    }
  }

  // ---------------------------------------------------------------- the resolution

  lemma {:induction false} RestMerges(primary: Record, records: Records, rest: seq<RecordId>)
    requires forall i :: 0 <= i < |rest| ==> rest[i] in records
    ensures var m, rs := MergeRest(primary, records, rest), [primary] + Listed(records, rest);
      MergesWho(m, rs) && MergesRoutes(m, rs)
    decreases |rest|
  {
    hide MergesWho, MergesRoutes, MergeInto;
    if rest == [] {
      WhoOfOne(primary);
      RoutesOfOne(primary);
      assert [primary] + Listed(records, rest) == [primary];
    } else {
      var front, last := rest[..|rest| - 1], records[rest[|rest| - 1]];
      RestMerges(primary, records, front);
      var rs := [primary] + Listed(records, front);
      assert [primary] + Listed(records, rest) == rs + [last];
      WhoOfMore(MergeRest(primary, records, front), rs, last);
      RoutesOfMore(MergeRest(primary, records, front), rs, last);
    }
  }

  /** A resolution that brings several records together combines everything they hold. */
  lemma MergingCombines(records: Records, ms: seq<RecordId>)
    requires ms != [] && forall i :: 0 <= i < |ms| ==> ms[i] in records
    requires forall i, j :: 0 <= i < j < |ms| ==> ms[i] != ms[j]
    ensures var m := MergeAll(records, ms)[ms[0]]; MergesWho(m, Listed(records, ms)) && MergesRoutes(m, Listed(records, ms))
  {
    RestMerges(records[ms[0]], records, ms[1..]);
    assert [records[ms[0]]] + Listed(records, ms[1..]) == Listed(records, ms);
    hide MergesWho, MergesRoutes;
  }
}
