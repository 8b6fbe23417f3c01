/**
 * Runs of the session tracker in which no observation mentions a shared alias: which identifiers
 * belong together can be read off the operations alone, queries and endings included, without
 * looking at any state of the tracker.
 */
module SessionLinks {
  import opened Options
  import opened SessionKeys
  import opened SessionRecords
  import opened SessionRuns

  ghost predicate Linked(links: seq<set<Ident>>, x: Ident) {
    exists k :: 0 <= k < |links| && x in links[k]
  }

  /** The request's strong identifiers that occur in a link. */
  ghost function LinkedIn(links: seq<set<Ident>>, p: Observation): set<Ident> {
    set x | x in StrongIdents(p) && Linked(links, x)
  }

  ghost predicate ConnectedToRequest(links: seq<set<Ident>>, p: Observation, y: Ident) {
    exists x :: x in LinkedIn(links, p) && Connected(links, x, y)
  }

  /** Everything that is connected to the request's identifiers. */
  ghost function ComponentOf(links: seq<set<Ident>>, p: Observation): set<Ident> {
    set k, y | 0 <= k < |links| && y in links[k] && ConnectedToRequest(links, p, y) :: y
  }

  /**
   * An observation links its strong identifiers, a query or a lookup those of its identifiers that
   * are linked already, and an ending takes the whole component of its identifier out.
   */
  ghost function OwnLinksAfter(links: seq<set<Ident>>, step: Step): seq<set<Ident>> {
    match step
    case Observed(p) => links + [OwnLink(p)]
    case Queried(q, _) => links + [LinkedIn(links, q)]
    case LookedUp(identifier) => links + [LinkedIn(links, LookupRequest(identifier))]
    case Ended(identifier) =>
      var all := links + [LinkedIn(links, LookupRequest(identifier))];
      Trimmed(all, ComponentOf(all, LookupRequest(identifier)))
    case Cleared => []
  }

  ghost function OwnLinksOf(steps: seq<Step>): seq<set<Ident>> {
    if steps == [] then [] else OwnLinksAfter(OwnLinksOf(steps[..|steps| - 1]), steps[|steps| - 1])
  }

  // ---------------------------------------------------------------- linked means known

  lemma LinkedIffOwned(records: Records, links: seq<set<Ident>>, x: Ident)
    requires Described(records, links)
    ensures Linked(links, x) <==> Strong(x) && Owned(records, x)
  {
    hide Holds, Strong;
    if k :| 0 <= k < |links| && x in links[k] {
      assert HeldByOne(records, links[k]);
    }
    if Strong(x) && Owned(records, x) {
      var r :| r in records && Holds(records[r], x);
      assert Connected(links, x, x);
      var path :| |path| >= 2 && path[0] == x && path[|path| - 1] == x && IsPath(links, path);
      assert Together(links, path[0], path[1]);
    }
  }

  lemma LinkedInIsKnown(records: Records, links: seq<set<Ident>>, p: Observation)
    requires Described(records, links)
    ensures LinkedIn(links, p) == KnownLink(records, p)
  {
    hide Described, Linked, Owned, StrongIdents, Strong;
    forall x | x in StrongIdents(p) ensures Linked(links, x) <==> Owned(records, x) {
      LinkedIffOwned(records, links, x);
      StrongIdentsAre(p, x);
    }
  }

  lemma LinkedAgain(links: seq<set<Ident>>, p: Observation)
    ensures LinkedIn(links + [LinkedIn(links, p)], p) == LinkedIn(links, p)
  {
    var all := links + [LinkedIn(links, p)];
    forall x ensures x in LinkedIn(all, p) <==> x in LinkedIn(links, p) {
      if k :| 0 <= k < |all| && x in all[k] && k < |links| {
        assert x in links[k];
      }
      if k :| 0 <= k < |links| && x in links[k] {
        assert x in all[k];
      }
    }
  }

  // ---------------------------------------------------------------- the component of a request

  lemma NoAliasMatches(records: Records, p: Observation)
    requires AllStrong(records)
    ensures WeakMatches(records, p) == {}
  {
    forall r, k | r in records && k in SessionKeysOf(p) && !IsStrongSessionKey(k) ensures k !in records[r].sessionKeys {
      assert Holds(records[r], Key(k)) ==> Strong(Key(k));
    }
  }

  /** Without aliases a request resolves exactly when it mentions something known, and then through that. */
  lemma ResolvedThrough(records: Records, p: Observation)
    requires Inv(records) && AllStrong(records)
    ensures Resolve(records, p).1.Resolved? <==> KnownLink(records, p) != {}
    ensures var (merged, resolution) := Resolve(records, p);
      resolution.Resolved? ==> resolution.id in merged && forall x :: x in KnownLink(records, p) ==> Holds(merged[resolution.id], x)
  {
    NoAliasMatches(records, p);
    ResolveShape(records, p);
    hide Resolve, WeakMatches, StrongMatches, StrongIdents, KnownLink, Inv, Holds, Joined;
    var (merged, resolution) := Resolve(records, p);
    forall x | x in KnownLink(records, p) ensures resolution.Resolved? && Holds(merged[resolution.id], x) {
      KnownLinkIsJoined(records, p, x);
    }
    if resolution.Resolved? {
      var x := ResolvedKnows(records, p, resolution.id);
    }
  }

  lemma ResolvedKnows(records: Records, p: Observation, r: RecordId) returns (x: Ident)
    requires r in Joined(records, p) && WeakMatches(records, p) == {}
    ensures x in KnownLink(records, p)
  {
    x := MatchedThrough(records, p, r);
  }

  /** What an ending forgets is the component of its identifier. */
  lemma ForgottenIsComponent(t: Tracker, identifier: string, links: seq<set<Ident>>)
    requires ValidTracker(t) && AllStrong(t.records) && Described(t.records, links)
    ensures var p := LookupRequest(identifier);
      Forgotten(t, identifier) == ComponentOf(links + [KnownLink(t.records, p)], p)
  {
    var p := LookupRequest(identifier);
    var known := KnownLink(t.records, p);
    var all := links + [known];
    ResolvedThrough(t.records, p);
    ResolvedInv(t.records, p);
    ResolveKeepsDescribed(t.records, p, links);
    LinkedInIsKnown(t.records, links, p);
    LinkedAgain(links, p);
    hide Resolve, LookupRequest, KnownLink, LinkedIn, Inv, Described, AllStrong, HeldStrong, Holds;
    var (merged, resolution) := Resolve(t.records, p);
    if resolution.Resolved? {
      forall y ensures y in HeldStrong(merged[resolution.id]) <==> y in ComponentOf(all, p) {
        ComponentIsRecord(merged, resolution.id, p, known, all, y);
      }
    } else {
      assert ComponentOf(all, p) == {};
    }
  }

  lemma ComponentIsRecord(records: Records, id: RecordId, p: Observation, known: set<Ident>, links: seq<set<Ident>>, y: Ident)
    requires Inv(records) && Described(records, links) && id in records
    requires known == LinkedIn(links, p) && known != {} && forall x :: x in known ==> Holds(records[id], x)
    ensures y in HeldStrong(records[id]) <==> y in ComponentOf(links, p)
  {
    HeldStrongAre(records[id], y);
    forall x ensures ConnectsRecord(records, links, x, y) { ComponentsMatch(records, links, x, y); }
    assert Separate(records);
    forall x | x in known ensures Strong(x) { LinkedIffOwned(records, links, x); }
    LinkedIffOwned(records, links, y);
    hide Described, Inv, Connected, LinkedIn, HeldStrong, Holds, Strong, Linked;
    if y in HeldStrong(records[id]) {
      var x :| x in known;
      assert SameRecord(records, x, y) && ConnectsRecord(records, links, x, y);
      assert Owned(records, y);
      InComponent(links, p, x, y);
    }
    if y in ComponentOf(links, p) {
      var x :| x in known && Connected(links, x, y);
      assert ConnectsRecord(records, links, x, y);
      var r :| r in records && Holds(records[r], x) && Holds(records[r], y);
      assert r == id;
    }
  }

  ghost predicate ConnectsRecord(records: Records, links: seq<set<Ident>>, x: Ident, y: Ident) {
    Strong(x) && Strong(y) && SameRecord(records, x, y) <==> Connected(links, x, y)
  }

  lemma InComponent(links: seq<set<Ident>>, p: Observation, x: Ident, y: Ident)
    requires x in LinkedIn(links, p) && Connected(links, x, y) && Linked(links, y)
    ensures y in ComponentOf(links, p)
  {
    var k :| 0 <= k < |links| && y in links[k];
    assert ConnectedToRequest(links, p, y);
  }

  // ---------------------------------------------------------------- runs

  lemma ResolveKeepsAllStrong(records: Records, p: Observation)
    requires AllStrong(records)
    ensures AllStrong(Resolve(records, p).0)
  {
    ResolveShape(records, p);
    hide Resolve, Joined;
    if Resolve(records, p).1.Resolved? {
      GatheredKeepsAllStrong(records, Joined(records, p), iset{}, Resolve(records, p).1.id, Resolve(records, p).0);
    }
  }

  ghost predicate WithoutAlias(step: Step) {
    step.Observed? ==> NoSharedKey(step.p)
  }

  lemma StepKeepsAllStrong(t: Tracker, step: Step)
    requires ValidTracker(t) && AllStrong(t.records) && WithoutAlias(step)
    ensures AllStrong(Apply(t, step).records)
  {
    hide Observe, QueryProvenance, Resolve, LookupRequest, ValidTracker, Holds;
    match step
    case Observed(p) => ObserveKeepsAllStrong(t, p);
    case Queried(q, ttl) =>
      ResolveKeepsAllStrong(t.records, q);
      QueryKeepsIdents(t, q, ttl);
    case LookedUp(identifier) => ResolveKeepsAllStrong(t.records, LookupRequest(identifier));
    case Ended(identifier) => ResolveKeepsAllStrong(t.records, LookupRequest(identifier));
    case Cleared =>
  }

  lemma StepKeepsOwnLinks(t: Tracker, step: Step, links: seq<set<Ident>>)
    requires ValidTracker(t) && AllStrong(t.records) && Described(t.records, links) && WithoutAlias(step)
    ensures Described(Apply(t, step).records, OwnLinksAfter(links, step))
  {
    hide AllStrong, LookupRequest, KnownLink, LinkedIn, Trimmed, ComponentOf, Forgotten, Sound, Complete, Observe, QueryProvenance, EndSession;
    match step
    case Observed(p) => OwnLinkStep(t, p, links);
    case Queried(q, ttl) =>
      LinkedInIsKnown(t.records, links, q);
      StepKeepsDescribed(t, step, links);
    case LookedUp(identifier) =>
      LinkedInIsKnown(t.records, links, LookupRequest(identifier));
      StepKeepsDescribed(t, step, links);
    case Ended(identifier) =>
      LinkedInIsKnown(t.records, links, LookupRequest(identifier));
      ForgottenIsComponent(t, identifier, links);
      StepKeepsDescribed(t, step, links);
    case Cleared => NothingIsDescribed();
  }

  lemma {:induction false} OwnLinksDescribe(steps: seq<Step>)
    requires forall i :: 0 <= i < |steps| ==> WithoutAlias(steps[i])
    ensures Described(After(steps).records, OwnLinksOf(steps)) && AllStrong(After(steps).records)
  {
    hide Described, Apply, OwnLinksAfter, ValidTracker, WithoutAlias;
    if steps != [] {
      var front, step := steps[..|steps| - 1], steps[|steps| - 1];
      OwnLinksDescribe(front);
      ReachableInv(front);
      StepKeepsOwnLinks(After(front), step, OwnLinksOf(front));
      StepKeepsAllStrong(After(front), step);
    } else {
      NothingIsDescribed();
    }
  }

  /**
   * After any run whose observations mention no shared alias, two identifiers are in one live
   * record exactly when the links of the operations, endings and clears considered, connect them.
   */
  lemma RecordsFollowOperations(steps: seq<Step>, a: Ident, b: Ident)
    requires forall i :: 0 <= i < |steps| ==> WithoutAlias(steps[i])
    ensures SameRecord(After(steps).records, a, b) <==> Connected(OwnLinksOf(steps), a, b)
  {
    OwnLinksDescribe(steps);
    ReachableInv(steps);
    ComponentsMatch(After(steps).records, OwnLinksOf(steps), a, b);
    hide Connected, After, OwnLinksOf, Described;
  }

  // ---------------------------------------------------------------- endings by id and by key

  /** A strong identifier that a request mentions belongs to the record it resolves to, or to none. */
  lemma MentionedIsResolved(records: Records, p: Observation, x: Ident)
    requires Inv(records) && Mentions(p, x) && Strong(x)
    ensures var (after, resolution) := Resolve(records, p);
      Owned(after, x) ==> resolution.Resolved? && resolution.id in after && Holds(after[resolution.id], x)
  {
    ResolveShape(records, p);
    ResolveConserves(records, p);
    hide Resolve, Joined, Mentions, Holds, Inv;
    if Owned(records, x) {
      var r :| r in records && Holds(records[r], x);
      KnownIsJoined(records, p, x, r);
    }
  }

  /** After an ending the tracker knows the identifier neither as a session id nor as a strong key. */
  lemma EndedIsForgotten(t: Tracker, identifier: string)
    requires ValidTracker(t)
    ensures !Owned(EndSession(t, identifier).records, Sid(identifier))
    ensures IsStrongSessionKey(identifier) ==> !Owned(EndSession(t, identifier).records, Key(identifier))
  {
    var p := LookupRequest(identifier);
    ResolvedInv(t.records, p);
    LookupMentions(identifier);
    EndForgetsExactlyOneRecord(t, identifier);
    KnownIsNonBlank(t.records, Sid(identifier));
    KnownIsNonBlank(t.records, Key(identifier));
    ResolveConserves(t.records, p);
    hide Resolve, LookupRequest, EndSession, Mentions, Owned, IsStrongSessionKey, NonBlank, Inv;
    if NonBlank(identifier) {
      MentionedIsResolved(t.records, p, Sid(identifier));
      if IsStrongSessionKey(identifier) {
        MentionedIsResolved(t.records, p, Key(identifier));
      }
    }
  }

  lemma LookupMentions(identifier: string)
    ensures NonBlank(identifier) ==> Mentions(LookupRequest(identifier), Sid(identifier)) && Mentions(LookupRequest(identifier), Key(identifier))
  {
  }

  lemma KnownIsNonBlank(records: Records, x: Ident)
    requires Inv(records)
    ensures Owned(records, x) ==> NonBlank(x.value)
  {
  }
}
