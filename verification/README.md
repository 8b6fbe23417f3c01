# Verified model of the OpenClaw event plugin

A Dafny model of the stateful parts of the plugin, with proofs about whole runs. `dafny verify dfyconfig.toml` checks
everything. Code that changes objects and maps step by step is modelled as classes whose methods are proved equal to
functions on values; the lemmas are about those functions and about every run of them.

- **Session tracker.** `SessionKeys`, `SessionRecords` (meaning of an observation, query or ending), `SessionTracker`
  (record objects and three inverted indexes changed in place), `SessionRuns` (runs), `SessionLinks` (runs without
  shared aliases), `RouteKeys`, `RouteHistory`, `RouteMerging`, `RouteAnswers` (routes from observation to answer),
  `Provenance` (route fields).
- **Single-owner transport.** `TransportLock` (the lock file as one cell), `ManagerSteps` and `TransportManager` (roles,
  relay queue, timers), `OwnerElection` (any number of runtimes), `RelayDelivery` (follower, lossy socket, owner),
  `RelayFlushing` (the order of a flush), `RelayFraming` (one connection), `RelayServing` (what clients are answered), `Dedupe`, `OwnerHandling` (failing handlers, arriving events), `SemanticKeys`,
  `SemanticKeyBars`, `TransportMetadata`.
- **Canonical printers.** `JsonText` (values and their text), `StableJson` (both printers), `ScopeKeys`.
- **Hook bridge.** `DispatchSteps`, `DispatchOffers` and `DispatchEngine` (bounded scheduler), `GuardRules`,
  `GuardDistinctions`, `GuardSteps`, `ToolGuard`, `GuardRuns`, `GuardMeaning` (tool guard).
- **Redaction.** `Redaction` (object graphs with sharing and cycles), `RedactionSharing` (when sharing shows),
  `RedactedAgain` (redacting the result), `PayloadRedaction` (whole payloads).
- **Delivery.** `Webhook` (retry loop), `EventQueue` (queue and flush), `QueueEvictions` (flushes with evictions),
  `DeliveryRuns` (many flushes).
- **Status.** `AgentStatus`, `StatusHistory`, `SubagentIdle`, `SubagentHistory`.

Where the code and its documentation or evident intent differ, the model follows the code:

- A session that is new in every strong identifier is attached to an earlier record when exactly one live record
  carries its shared alias `agent:<x>:main`, so the alias alone can collapse two sessions; `docs/events.md:333` treats
  such an alias as one that several active sessions share. `SharedAliasAttaches` gives the exact condition,
  `SharedAliasCollapsesTwoSessions` an instance, and `PartitionWithoutAliases` the clean partition without such aliases.
- `stableJsonStringify` and redaction build their results by assignment, so an own key `__proto__` is lost
  (`StableJsonStringifyIdentifies`, `ProtoKeyIsLost`). The guard's tables then answer for calls that the rules tell apart.
  `AgreementIff` says for which runs verdicts stay right under every rule set: those in which the earlier calls of a scope are
  alike to the call, and `Alike` is decided on the parameters. `ProtoKeyAlikeIff` spells it out for a `__proto__` parameter.
- The semantic key joins fields with `|` without escaping. An event's key determines its meaning exactly when its plain
  fields have no bar (`KeyDeterminesMeaningIff`); `BarsCollide` gives the colliding event for every other one.
- The route key joins `name=value` parts with `|` without escaping, so routes that differ can share an entry: another route has
  the same key exactly when two of the telling fields are told, or the only one told contains what looks like a later one
  (`RouteKeyIsSharedIff`). Among routes without bars in these fields the key is exact (`RouteKeyIdentifies`).
- An acknowledgement removes the first event of the relay queue, which is the one that was sent exactly if the queue has not
  overflowed since the send began (`AcknowledgementIsRightIff`).
- The dedupe window of a dropped duplicate starts anew for its id, so with semantic dedupe an event can be dropped up to
  almost two windows after the accepted one (`DropOutlivesOneWindow`).
- Under `drop_newest`, an offer that finds an expired coalesce entry removes it and may then be dropped itself; the queued
  task can no longer be merged with (`EnqueueKeepsCompleteIff`, `DropNewestForgetsKey`).
- The retry backoff repeats a block without the parameter patch of the blocking decision: a patch is lost exactly when the
  scope is within its backoff as the call arrives (`GuardAgreesWithRules`; `BackoffLosesPatch` is an instance).
- A relay stream may be answered differently depending on how the socket splits it: exactly when a newline comes within the size
  limit, and the stream exceeds the limit, or something follows its blank first line, or something other than white space
  follows a first line that ends in white space which is none in JSON (`SplittingIsInvisibleIff`); serialized envelopes are
  not affected. The condition is over all parsers that skip only JSON white space; a fixed one may treat more texts alike,
  such as those with a first line that it never accepts.
- The owner marks an event as seen before its handler runs, and acknowledges whatever it drops. So an event is acknowledged
  without ever having been handled exactly when a copy of it is dropped, because it repeats a live id or semantic key, and no
  earlier copy was handled (`LostIffRepeatsUnhandled`). With semantic dedupe off that takes a retransmission within the
  window of a failed attempt (`LostIffRetriedTooSoon`); with it on, as by default, the event can also be lost to another
  one of its meaning that ran meanwhile (`LostToAnotherEvent`).
- Redaction replaces a record that is merely shared, not cyclic, exactly when the result shows it at a place where it was
  visited before; visits below sensitive keys do not happen, and visits below `__proto__` are not shown
  (`SharingIsHarmlessIff`; `SharedRecordIsReplaced` is an instance).
- A flush of the delivery queue removes other events than the handled ones when deliveries settle out of order and, without
  evictions, only then (`RemovesMarkedIffAscending`). With deliveries settling in order it does exactly when an event was
  evicted after the batch of an event to be removed had been taken (`RemovesMarkedIffNoneEvictedSince`).
- `clear` makes the status reducer forget what it announced, so the same status can be announced twice in a row
  (`ClearRepeatsAnnouncement`); without a clear in between it cannot (`EqualAnnouncementsAreApart`).

## Model

| member | source | states |
|---|---|---|
| `SessionKeys.JoinSplit` | src/hooks/session-tracker-helpers.ts:179-216 | splitting a key at colons loses nothing: joining the segments gives the key back |
| `SessionKeys.SharedKeyForm` | src/hooks/session-tracker-helpers.ts:218-225 | the parser takes a key for a shared runtime alias if and only if it has the form `agent:<x>:main` with no colon in x |
| `RouteKeys.KeySegments` | src/hooks/session-tracker-helpers.ts:179-216 | what a key made of colon-free segments says, segment by segment, and when it is thread-scoped; other keys say nothing |
| `SessionRecords.HasStrongIffMentioned` | src/hooks/session-tracker-helpers.ts:227-243 | the guard that admits an observation holds exactly when it mentions a session id or a strong key |
| `SessionRecords.StrongIdentsAre` | src/hooks/session-tracker-helpers.ts:245-295 | the identifiers looked up to link records are exactly the mentioned ones that are not shared aliases |
| `SessionRecords.OwnersMatch` | src/hooks/session-tracker-helpers.ts:245-295 | every record that holds one of the looked-up identifiers is among the matches |
| `SessionRuns.MergeRestHolds` | src/hooks/session-tracker-helpers.ts:343-394 | folding records into one collects exactly the identifiers, strong keys and route keys that any of them holds |
| `SessionRuns.MergeConserves` | src/hooks/session-tracker.ts:435-445 | merging k distinct records keeps every identifier and route key known, removes exactly k - 1 records and leaves the others as they were |
| `RouteMerging.MergingCombines` | src/hooks/session-tracker-helpers.ts:343-394 | the merged record has the first start, the latest touch, the first agent and parents told, and under each route key the earliest and latest sights, all runs and the last value of each field |
| `SessionRuns.ResolveConserves` | src/hooks/session-tracker.ts:375-418 | resolving any request, queries included, keeps all identifiers and route keys known; k strong matches cost k - 1 records and fewer than two cost none |
| `SessionRuns.ResolveShape` | src/hooks/session-tracker.ts:375-418 | a request resolves to a record that gathers all its strong matches, or its only weak match; several weak matches are ambiguous and none is unresolved |
| `SessionRuns.KnownIsJoined` | src/hooks/session-tracker.ts:375-418 | the owner of any strong identifier a request mentions is among the records it brings together |
| `SessionRuns.UnknownRequestMergesNothing` | src/hooks/session-tracker.ts:405-417 | a request none of whose strong identifiers is known, such as one of shared aliases only, leaves all records as they are |
| `SessionRuns.ObserveShape` | src/hooks/session-tracker.ts:305-373 | an accepted observation turns the joined records and everything it mentions into one record and changes no other; a refused one changes nothing |
| `RouteHistory.MentionsAre` | src/hooks/session-tracker-helpers.ts:245-275 | an observation mentions exactly its non-blank ids, keys and run, and an id of the form `agent:` also as a key |
| `RouteHistory.AcceptedIff` | src/hooks/session-tracker.ts:305-325 | an observation counts if and only if it mentions a session id, a strong key or a known run, and what it mentions is not known by shared aliases of several records alone |
| `RouteHistory.ObservationNotesRoute` | src/hooks/session-tracker.ts:347-372 | an accepted observation notes the route it speaks of: each field is its own, else its first thread-scoped key's, else the one noted before; first and last sight, direction and runs are updated; other entries stay |
| `RouteHistory.ObservationTellsWho` | src/hooks/session-tracker.ts:341-345 | it also tells the last touch, the agent and the parents; what it leaves open stays |
| `SessionRuns.ObserveKeepsInv` | src/hooks/session-tracker.ts:305-373 | observing keeps every strong identifier in at most one record, strong keys in step with keys, and a strong session identifier in every record |
| `SessionRuns.EndForgetsExactlyOneRecord` | src/hooks/session-tracker.ts:120-146 | ending a session forgets exactly the strong identifiers of the record its identifier resolves to, and no other record; without such a record nothing changes |
| `SessionRuns.StepKeepsInv` | src/hooks/session-tracker.ts:116-305 | observe, query, lookup, end and clear each keep the tracker's invariant |
| `SessionRuns.ReachableInv` | src/hooks/session-tracker.ts:62-458 | the invariant holds in every reachable state |
| `SessionRuns.RecordsAreComponents` | src/hooks/session-tracker.ts:116-445 | after any run of observations, queries, lookups, endings and clears two strong identifiers are in one live record if and only if links connect them: an observation links its identifiers and those of a record it reached through an alias, a query or lookup those of its identifiers that are known, and ending or clearing takes the forgotten ones out of the links |
| `SessionRuns.PartitionWithoutAliases` | src/hooks/session-tracker.ts:305-445 | without shared aliases the live records are exactly the connected components of the graph that links identifiers occurring in one observation |
| `SessionLinks.ForgottenIsComponent` | src/hooks/session-tracker.ts:120-146 | without shared aliases, ending a session forgets exactly the connected component of its identifier |
| `SessionLinks.RecordsFollowOperations` | src/hooks/session-tracker.ts:116-445 | after any run of all public operations whose observations mention no shared alias, two identifiers are in one live record if and only if the links read off the operations alone connect them |
| `SessionLinks.EndedIsForgotten` | src/hooks/session-tracker.ts:120-146 | after an ending the tracker knows the identifier neither as a session id nor as a strong key |
| `SessionRuns.SharedAliasAttaches` | src/hooks/session-tracker.ts:405-417 | new strong identifiers join an earlier session exactly when one live record carries one of the observation's shared aliases; with none a record is created, with several nothing changes |
| `SessionRuns.SharedAliasCollapsesTwoSessions` | src/hooks/session-tracker.ts:405-417 | two unrelated session ids observed with the same shared alias, and nothing else, end up in one record |
| `SessionTracking.AddAll` | src/hooks/session-tracker-helpers.ts:396-401 | adding index entries for values keeps the index the exact inverse of the records |
| `SessionTracking.RemoveAll` | src/hooks/session-tracker-helpers.ts:413-433 | removing a record's entries keeps the index the exact inverse of the remaining records and leaves no empty set |
| `SessionTracking.MatchStrong` | src/hooks/session-tracker-helpers.ts:245-295 | looking up ids, strong keys and the run id in the three indexes finds the owners in order of first lookup |
| `SessionTracking.MergeRouteObservations` | src/hooks/session-tracker-helpers.ts:369-391 | the loop combines two route tables key by key |
| `SessionTracking.PruneExpiredRoutes` | src/hooks/session-tracker-helpers.ts:335-341 | exactly the routes seen within the lifetime remain |
| `SessionTracking.SessionRecord.Absorb` | src/hooks/session-tracker-helpers.ts:343-394 | absorbing another record in place gives the merged record's value |
| `SessionTracking.SessionRecord.PickPreferred` | src/hooks/session-tracker-helpers.ts:297-309 | a thread-scoped key is preferred, else a strong one, else nothing |
| `SessionTracking.SessionTracker.Clear` | src/hooks/session-tracker.ts:298-303 | all records and index entries are gone |
| `SessionTracking.SessionTracker.RemoveRecord` | src/hooks/session-tracker.ts:447-458 | the record is gone and each index is still the inverse of the rest |
| `SessionTracking.SessionTracker.MergeRecords` | src/hooks/session-tracker.ts:435-445 | the first record object absorbs the others, the indexes name it in their place, and the tracker's value is the merged one |
| `SessionTracking.SessionTracker.ResolveUniqueRecord` | src/hooks/session-tracker.ts:375-418 | the index-driven lookup gives the value-level resolution and keeps all indexes exact |
| `SessionTracking.SessionTracker.ObserveSession` | src/hooks/session-tracker.ts:305-373 | the in-place observation has exactly the specified effect on the records and keeps the three indexes their exact inverse |
| `SessionTracking.SessionTracker.EndSession` | src/hooks/session-tracker.ts:120-146 | ending has exactly the specified effect and keeps the indexes exact |
| `SessionTracking.SessionTracker.GetSessionProvenance` | src/hooks/session-tracker.ts:191-279 | a query, which may merge records and prunes routes, has the specified effect and returns a snapshot whose record, route and route resolution describe the state after it |
| `Provenance.RouteFieldsNeedOneFreshCandidate` | src/runtime/provenance.ts:210-293 | route fields are emitted only when one record wins and exactly one unexpired route candidate of it remains, and then they are that candidate's, completed from the parsed key |
| `Provenance.RouteResolvedIffOneFreshCandidate` | src/runtime/provenance.ts:210-293 | an event says that its route is resolved if and only if one record wins and exactly one unexpired candidate of it remains; otherwise it carries no route field |
| `Provenance.NoRecordNoRoute` | src/runtime/provenance.ts:248-291 | an ambiguous or unresolved request yields no route field |
| `RouteAnswers.QueryIsAnswered` | src/hooks/session-tracker.ts:236-279 | a query that resolves to a record is answered the only unexpired route that its run has used, or else the only unexpired one; several are ambiguous, none is unavailable |
| `RouteAnswers.ObservedRouteIsAnswered` | src/hooks/session-tracker.ts:191-373 | a query within the time to live of an observation, on a record without other routes, is answered the observed route, field by field |
| `RouteAnswers.ReportedKey` | src/hooks/session-tracker.ts:240-245 | the session key reported is the one asked with if it says where, else a thread-scoped one of the record, else a strong one |
| `RouteKeys.RouteKeyIdentifies` | src/hooks/session-tracker-helpers.ts:156-177 | routes with the same telling fields share a key, and without bars in these no others do |
| `RouteKeys.RouteKeyIsSharedIff` | src/hooks/session-tracker-helpers.ts:156-177 | some different route has the same key if and only if two telling fields are told or the only one told contains a bar followed by a later field's name and value |
| `JsonText.EscapeDecodes` | src/transport/protocol.ts:38 | the escaped text of a string, followed by a closing quote, determines the string and what follows |
| `JsonText.PrintInjective` | src/transport/protocol.ts:33-45 | two valid JSON values with the same text are the same value |
| `StableJson.StableStringifyIsCanonical` | src/transport/protocol.ts:33-45 | two JSON values print alike if and only if they are equal up to the order of object keys |
| `StableJson.StableJsonStringifyIdentifies` | src/runtime/hook-bridge-utils.ts:106-125 | two JSON values print alike if and only if they are equal up to key order and up to keys named `__proto__`, whatever total order the keys are sorted by |
| `StableJson.StableJsonStringifyIsCanonical` | src/runtime/hook-bridge-utils.ts:106-125 | on values without such keys the printer is canonical |
| `StableJson.ProtoKeyIsLost` | src/runtime/hook-bridge-utils.ts:117-123 | an object with the only key `__proto__` prints like the empty object |
| `ScopeKeys.NoColonSuffix` | src/runtime/hook-bridge-tool-guard.ts:205-214 | no object's text ends with a colon followed by another object's text |
| `ScopeKeys.ScopeKeyIdentifies` | src/runtime/hook-bridge-tool-guard.ts:205-214 | two calls share a `tool:params` key exactly when the tool names agree, colons in them included, and the parameters are equal up to key order and `__proto__` keys |
| `ScopeKeys.ToolKeyIdentifies` | src/runtime/hook-bridge-tool-guard.ts:205-214 | by tool only, calls share a key exactly when the tool names agree |
| `SemanticKeys.SameMeaningSameKey` | src/transport/protocol.ts:61-73 | events that agree in the plain fields, and in data, error and result up to key order, have the same key |
| `SemanticKeys.SameMeaningIs` | src/transport/protocol.ts:61-73 | which fields make up the meaning of an event, an undefined one counting as empty |
| `SemanticKeys.HasKeyIff` | src/transport/protocol.ts:48-59 | an event has a key exactly if one of six context fields is not blank |
| `SemanticKeyBars.KeyIdentifiesMeaning` | src/transport/protocol.ts:61-73 | an event without bars in its plain fields has the key text of exactly the events of the same meaning, whatever bars those have |
| `SemanticKeyBars.KeyDeterminesMeaningIff` | src/transport/protocol.ts:61-73 | the key of an event determines its meaning among all events if and only if no plain field of it has a bar |
| `SemanticKeys.BarsCollide` | src/transport/protocol.ts:61-73 | every event with a key and a bar in a plain field shares its key with some valid event of different meaning |
| `TransportMetadata.OnlyTransportChanges` | src/transport/protocol.ts:80-107 | annotating changes nothing but the transport record of the metadata, so the semantic key stays |
| `TransportMetadata.AnnotatedValue` | src/transport/protocol.ts:95-104 | which value each property of the transport record has afterwards |
| `TransportMetadata.EmitterIsKept` | src/transport/protocol.ts:76-107 | an event annotated twice keeps the emitter of the first annotation, takes the route of the second and keeps its semantic key |
| `Dedupe.DedupeTables.PruneEntries` | src/transport/manager-dedupe.ts:11-29 | exactly the unexpired entries of both tables remain |
| `Dedupe.DedupeTables.ShouldProcess` | src/transport/manager-dedupe.ts:36-70 | the in-place check and registration have the specified verdict and effect |
| `Dedupe.RegisterKeeps` | src/transport/manager-dedupe.ts:36-70 | a later arrival never shortens or extends an unexpired entry of another id or key, and an accepted one gets a full window |
| `Dedupe.AcceptedAreApart` | src/transport/manager-dedupe.ts:11-70 | on a forward clock, two accepted arrivals with the same id, or the same semantic key when enabled, are at least the window apart |
| `Dedupe.DroppedRepeatsAccepted` | src/transport/manager-dedupe.ts:11-70 | every dropped arrival repeats an accepted one of the same id or key less than two windows earlier, less than one without semantic dedupe |
| `Dedupe.DropOutlivesOneWindow` | src/transport/manager-dedupe.ts:36-70 | for every window of at least 3 there is a run in which an arrival is dropped more than one window after the only accepted one |
| `OwnerHandling.SameMeaningRunsOnceAWindow` | src/transport/manager.ts:336-348 | with semantic dedupe, two events of the same meaning that have a key are never both run within the window |
| `OwnerHandling.DroppedRepeatsMeaning` | src/transport/manager.ts:336-348 | a dropped event without bars repeats an event of the same meaning, or itself, that was run less than two windows before |
| `OwnerHandling.DroppedIffRepeats` | src/transport/manager-dedupe.ts:11-70 | on a forward clock an arrival is dropped if and only if, less than the window before, one of its id was not dropped for its id, or, with semantic dedupe, one of its key was run |
| `OwnerHandling.LostIffRepeatsUnhandled` | src/transport/manager.ts:336-348 | with failing handlers and any configuration, an acknowledged event was never handled successfully exactly when its copy is dropped as such a repetition and no earlier copy's handler succeeded |
| `OwnerHandling.LostIffRetriedTooSoon` | src/transport/manager.ts:336-348 | with semantic dedupe off, an acknowledged event was never handled successfully exactly when a copy arrived less than the window after an attempt to handle it and no earlier attempt succeeded |
| `OwnerHandling.LostToAnotherEvent` | src/transport/manager-dedupe.ts:46-68 | for every window of at least 2 there is a run with semantic dedupe in which a failed event is acknowledged and lost although no copy of it ran within the window |
| `TransportLock.LockCell.AcquireTransportLock` | src/transport/ownership.ts:43-134 | create, read, judge, replace and re-create, as one step, have the specified result and leave the specified lock |
| `TransportLock.LockCell.WriteHeartbeat` | src/transport/ownership.ts:140-161 | the heartbeat overwrites the lock with the runtime's name, whatever it holds, unless writing fails |
| `TransportLock.LockCell.ReleaseTransportLock` | src/transport/lock.ts:110-126 | a lock that names another runtime stays; anything else, an unreadable lock included, is removed unless unlinking fails |
| `TransportLock.AcquiredMeansFree` | src/transport/ownership.ts:43-134 | acquiring leaves the lock naming the acquirer and never takes it from a live process; failing leaves it as it was or absent, and as it was when its holder lives |
| `TransportLock.AcquiredIffUnguarded` | src/transport/ownership.ts:43-134 | for every combination of faults: exactly a lock that names no running process and is not an unreadable fresh one is acquired; and what is left and told otherwise |
| `TransportLock.FreeLockIsTaken` | src/transport/ownership.ts:52-54 | without faults an absent lock is taken, and an unreadable one exactly if it is older than the limit |
| `TransportLock.DeadHolderIsReplaced` | src/transport/lock.ts:89-108 | the lock of a dead process is taken over at once, whatever its age |
| `TransportLock.ReleasedUnlessForeign` | src/transport/lock.ts:110-126 | a release that does not fail leaves exactly the locks of other runtimes |
| `TransportManagement.TransportManager.Dispatch` | src/transport/manager.ts:89-102 | an owner is to handle the event and any other runtime, a stopped one included, queues it; on a running one the event is then last in the bounded queue and a flush is running or armed |
| `TransportManagement.TransportManager.HandleOwnerFailure` | src/transport/manager.ts:399-437 | a running runtime gives up the role and, as far as the release succeeds, the lock, arms a recovery in owner mode, and waiting events still have a flush running or armed |
| `ManagerSteps.StepKeepsAwake` | src/transport/manager.ts:59-483 | every step of a manager, in any order, keeps: waiting events are being flushed or a retry is armed, one flush loop at most, queue within its limit, an owner-mode runtime that is not the owner has a recovery armed |
| `ManagerSteps.StepKeepsRole` | src/transport/manager.ts:59-483 | every step keeps role, ownership, mode and phase of a manager together, whatever the lock file holds: while running it is owner exactly when it took the lock, and a recovery is armed only while running in owner mode |
| `ManagerSteps.NoLostWakeups` | src/transport/manager.ts:137-222 | that holds in every state of every interleaving of dispatch, timers, acknowledgements, failures and stop |
| `RelayFlushing.FlushGoesThroughAll` | src/transport/manager.ts:172-222 | an undisturbed flush sends, or as the owner handles, each waiting event once, in order, until none is left |
| `RelayFlushing.FlushFails` | src/transport/manager.ts:196-221 | a failed send keeps the event and everything behind it and arms the retry; a failed handler ends the flush |
| `RelayFlushing.DispatchQueues` | src/transport/manager.ts:89-155 | a dispatched event is queued last, a full queue losing its oldest, and the timer is armed; for an owner nothing is queued |
| `RelayFlushing.AcknowledgementIsRightIff` | src/transport/manager.ts:137-195 | an acknowledgement after further dispatches removes exactly the sent event, besides those pushed out, if and only if none was pushed out |
| `OwnerElection.NextKeepsInv` | src/transport/manager.ts:238-280 | every event of a world of runtimes and one lock keeps owners in step with the lock |
| `OwnerElection.AtMostOneOwner` | src/transport/ownership.ts:43-134 | in every run of any number of runtimes, at most one live runtime holds the lock and the lock names it |
| `OwnerElection.OwnersHoldTheLock` | src/transport/manager.ts:399-437 | a running manager has the owner role exactly when it holds the lock; a follower-mode, unstarted or stopped one never holds it |
| `OwnerElection.BecomesOwnerIffUnguarded` | src/transport/manager.ts:59-83 | a fault-free start or recovery of an owner-mode runtime makes it the owner if and only if the lock names no running process and is not an unreadable fresh one; otherwise it will try again |
| `OwnerElection.HeartbeatsKeepTheLock` | src/transport/ownership.ts:140-161 | a written heartbeat keeps the owner and refreshes the lock; a failed one makes it step down and release |
| `OwnerElection.StoppingReleases` | src/transport/manager.ts:104-135 | stopping cancels all timers, and the lock is released when the server has closed |
| `OwnerElection.RoleMatchesLock` | src/transport/manager.ts:238-280 | if no release fails, a running manager is owner exactly when the lock file names it |
| `OwnerElection.TakeoverAfterCrash` | src/transport/lock.ts:98-103 | after the owner's process dies the next recovery attempt of another owner-mode runtime makes it the owner |
| `RelayDelivery.DeliveryAccepted` | src/transport/manager-dedupe.ts:36-70 | a retransmission is accepted exactly when the dedupe window since it was first processed has passed |
| `RelayDelivery.RunKeepsInv` | src/transport/manager.ts:336-348 | queue, network, owner and dedupe table stay in step through every loss, retry and late acknowledgement |
| `RelayDelivery.RunsOnceInOrder` | src/transport/relay-server.ts:102-103 | dispatched events are the acknowledged ones followed by the waiting ones; the owner has run the acknowledged ones, or those and the head, each once and in dispatch order |
| `RelayFraming.RequestOfLine` | src/transport/relay-server.ts:85 | a nonblank first line of a buffer is the request whatever follows it, up to white space at its end |
| `RelayFraming.OneBoundedAction` | src/transport/relay-server.ts:43-75 | for every sequence of chunks exactly one buffer is processed or the payload refused, decided at the first chunk that completes a line or exceeds the limit; a processed buffer fits the limit |
| `RelayFraming.EnvelopeServedOnceIffItFits` | src/transport/protocol.ts:29-31 | every split of a serialized envelope is processed once with the line that was sent if it fits the limit, and refused otherwise |
| `RelayFraming.EventDeliveredOnceIffItFits` | src/transport/relay-server.ts:77-112 | the event of an admitted envelope reaches the handler once if the envelope fits and never otherwise, and the reply says which |
| `RelayServing.EnvelopeIsAnswered` | src/transport/relay-server.ts:77-112 | an envelope that fits gets, in every split, the answer that parsing, token, event and handler ask for |
| `RelayServing.WrongTokenIsRefused` | src/transport/relay-server.ts:93-96 | an envelope with a wrong or no token runs nothing and is answered so |
| `RelayServing.OnlyTheTokenDelivers` | src/transport/relay-server.ts:93-103 | whatever is sent, an event runs only if its request carries the configured token |
| `RelayServing.RightTokenIsServed` | src/transport/relay-server.ts:93-103 | with the right token, or none or an empty one configured, a well-formed event runs |
| `RelayServing.EveryStreamIsAnswered` | src/transport/relay-server.ts:43-112 | every stream gets one reply: a refusal if it is too large, one for nothing but white space, or that to its first line |
| `RelayServing.SizeIsBytes` | src/transport/relay-server.ts:52 | the size compared with the limit is the number of UTF-8 bytes |
| `RelayFraming.SplittingIsInvisibleIff` | src/transport/relay-server.ts:48-71 | exactly which texts get the same replies and deliveries under every split into chunks, for every handler and every parser that skips only JSON white space at the end |
| `RelayFraming.Connection.OnData` | src/transport/relay-server.ts:48-64 | the data callback has the specified effect on buffer, byte count and flag, with replies and deliveries in step |
| `RelayFraming.Connection.OnEnd` | src/transport/relay-server.ts:66-71 | the end callback processes the buffer unless something was handled |
| `RelayFraming.Connection.ProcessIncomingEnvelope` | src/transport/relay-server.ts:77-112 | parsing, token, shape and handler decide the reply and the delivery as specified |
| `DispatchSteps.EnqueueKeepsInv` | src/runtime/hook-bridge-dispatch-engine.ts:46-78 | offering a task keeps the queue bounded, the key index right, the workers busy and every task accounted for |
| `DispatchSteps.PumpKeepsQueue` | src/runtime/hook-bridge-dispatch-engine.ts:134-164 | pumping starts tasks from the front until all workers are busy or the queue is empty; it resolves all waiters if then nothing runs and nothing is queued, and none otherwise |
| `DispatchSteps.RunKeepsInv` | src/runtime/hook-bridge-dispatch-engine.ts:46-164 | in every reachable state: queue within its limit, each coalesce entry names the latest queued task of its key, a non-empty queue means all workers run, and a waiter means work is outstanding |
| `DispatchSteps.EveryTaskHasOneFate` | src/runtime/hook-bridge-dispatch-engine.ts:46-164 | every offered task is exactly one of started, queued, dropped and merged |
| `DispatchOffers.OfferIsMergedIff` | src/runtime/hook-bridge-dispatch-engine.ts:85-132 | an offer is merged if and only if the latest queued task of its key is indexed and within the window; that task then takes the event by the configured strategy and nothing else changes |
| `DispatchOffers.OtherOfferIsQueued` | src/runtime/hook-bridge-dispatch-engine.ts:46-78 | any other offer is refused, or queued last with its own event, by the drop policy |
| `DispatchOffers.FinishTakesNext` | src/runtime/hook-bridge-dispatch-engine.ts:142-164 | a worker that ends its task takes the oldest queued one |
| `DispatchSteps.DropOldestIndexesEveryKey` | src/runtime/hook-bridge-dispatch-engine.ts:54-70 | under drop_oldest every queued coalesce key is always indexed |
| `DispatchSteps.EnqueueKeepsCompleteIff` | src/runtime/hook-bridge-dispatch-engine.ts:54-117 | an offer leaves all queued keys indexed exactly unless it is dropped as the newest after removing an expired entry |
| `DispatchSteps.DropNewestForgetsKey` | src/runtime/hook-bridge-dispatch-engine.ts:54-117 | three offers after which a queued task's key is no longer indexed |
| `DispatchEngine.HookBridgeDispatchEngine.TryCoalesceTask` | src/runtime/hook-bridge-dispatch-engine.ts:85-132 | merging changes only the queued task it names, in place, and never a started one |
| `DispatchEngine.HookBridgeDispatchEngine.EnqueueTask` | src/runtime/hook-bridge-dispatch-engine.ts:46-78 | the in-place operation has the specified effect, and the by-id map is exactly the queued tasks |
| `DispatchEngine.HookBridgeDispatchEngine.PumpWorkers` | src/runtime/hook-bridge-dispatch-engine.ts:134-140 | the loop has the specified effect on queue, maps and worker count |
| `DispatchEngine.HookBridgeDispatchEngine.OnTaskFinished` | src/runtime/hook-bridge-dispatch-engine.ts:142-164 | a worker takes the next task, or ends and lets the pool refill and the drain resolve |
| `DispatchEngine.HookBridgeDispatchEngine.Stop` | src/runtime/hook-bridge-dispatch-engine.ts:80-83 | stopping pumps and waits exactly if work is left |
| `GuardRules.MatchDependsOnCall` | src/runtime/hook-bridge-tool-guard.ts:42-203 | a rule whose conditions read only tool name and parameters, and compare with scalars, matches both of two calls of a tool with alike parameters, or neither |
| `GuardRules.SameIsAlike` | src/runtime/hook-bridge-tool-guard.ts:42-203 | parameters that are equal up to key order are alike |
| `GuardDistinctions.TellApart` | src/runtime/hook-bridge-utils.ts:34-68 | of two parameter values that are not alike some single condition on a dotted path holds of one and not of the other |
| `GuardSteps.OrderIsSorted` | src/runtime/hook-bridge.ts:167-177 | the evaluation order lists every rule, by priority and then by position |
| `ToolGuard.HookBridgeGuard.CleanupToolGuardState` | src/runtime/hook-bridge.ts:392-409 | exactly the live approvals and the blocks within the backoff remain |
| `ToolGuard.HookBridgeGuard.RecordToolGuardDecision` | src/runtime/hook-bridge.ts:411-438 | a block enters the backoff table, anything else the approval cache if that is on |
| `ToolGuard.HookBridgeGuard.EvaluateBeforeToolCall` | src/runtime/hook-bridge.ts:101-366 | the in-place evaluation has the specified outcome and effect on the three tables |
| `GuardRuns.GuardAgreesWithRules` | src/runtime/hook-bridge.ts:120-243 | for static, cooldown-free rules over tool name and parameters, after any run whose earlier calls of the scope are alike, the guard's verdict, and an allow's parameter patch, are those of evaluating the rules afresh; a patch is lost exactly when the scope is within its backoff as the call arrives |
| `GuardRuns.AgreementIff` | src/runtime/hook-bridge.ts:120-243 | a call gets the verdict of the rules under every such rule set, backoff and cache lifetime if and only if all earlier calls of its scope are alike to it |
| `GuardRuns.ProtoFreeRunsAgree` | src/runtime/hook-bridge.ts:120-243 | in runs whose parameters have no `__proto__` key every call gets the verdict of the rules, under all such rule sets |
| `GuardRuns.ProtoKeyAlikeIff` | src/runtime/hook-bridge-utils.ts:117-123 | parameters with only a `__proto__` key are alike to the empty ones they share a scope with exactly when that key's value reads like the prototype it hides |
| `GuardRuns.BackoffLosesPatch` | src/runtime/hook-bridge.ts:135-155 | the second of two equal calls that one patched block applies to is blocked without the patch |
| `GuardRuns.BestRuleDecides` | src/runtime/hook-bridge.ts:167-243 | among rules with static decisions the eligible one of highest priority, earliest in the list, decides |
| `GuardRuns.NoRuleNoDecision` | src/runtime/hook-bridge.ts:361-366 | the guard has no opinion exactly when no rule is eligible |
| `GuardMeaning.FirstRuleToSpeakDecides` | src/runtime/hook-bridge.ts:167-361 | a call is told what the first rule says that says something, each judged as if it were alone, by priority and position |
| `GuardMeaning.LoneRuleSays` | src/runtime/hook-bridge.ts:179-360 | what one rule says, by its decision, its action's answer, dry run, stop and error settings; nothing if disabled, unmatched or cooling down |
| `GuardMeaning.AllConditionsDecide` | src/runtime/hook-bridge-tool-guard.ts:42-203 | a rule decides a call exactly if each of its conditions does on its own |
| `GuardMeaning.ToolNamesDecide` | src/runtime/hook-bridge-tool-guard.ts:53-56 | a list of tool names decides exactly the calls of these tools |
| `GuardMeaning.PropertyListDecides` | src/runtime/hook-bridge-tool-guard.ts:49-68 | a list for another property of the event decides exactly the events with one of these strings there |
| `GuardMeaning.ChecksOfParam` | src/runtime/hook-bridge-tool-guard.ts:70-128 | what a substring, equality, presence or list check asks of a parameter |
| `GuardMeaning.TypeChecksOfParam` | src/runtime/hook-bridge-tool-guard.ts:96-114 | what a type check asks of a parameter |
| `GuardMeaning.InterpretedChecksOfParam` | src/runtime/hook-bridge-tool-guard.ts:130-200 | what checks by expression, host, number and parent status ask of a parameter |
| `GuardMeaning.ChecksOfMissingParam` | src/runtime/hook-bridge-tool-guard.ts:70-200 | of a missing parameter exactly the negative checks hold |
| `GuardMeaning.RulesSpeakForTheirTools` | src/runtime/hook-bridge-tool-guard.ts:53-56 | whatever the rules say of a call comes from an enabled rule that is not for other tools |
| `GuardMeaning.ApprovalIsRepeated` | src/runtime/hook-bridge.ts:157-166 | with the cache on, an approval and its patch are repeated to every call of the scope until they expire |
| `GuardMeaning.BackoffHasBlock` | src/runtime/hook-bridge.ts:135-155 | a call is blocked by the backoff only while that of an earlier block of its scope lasts |
| `GuardMeaning.ToolScopeBlocksTool` | src/runtime/hook-bridge-tool-guard.ts:210-212 | where scopes are tools, a block holds for all calls of the tool and no other |
| `GuardRuns.BackoffBlocksWithoutRules` | src/runtime/hook-bridge.ts:135-155 | after a recorded block every call of that scope before the backoff ends is blocked without triggering any rule |
| `GuardRuns.CacheRepeatsRecentApproval` | src/runtime/hook-bridge.ts:157-166 | a cache hit repeats the patch of an approval of the same scope less than the cache lifetime old |
| `GuardRuns.NeverBlockedAndApproved` | src/runtime/hook-bridge.ts:392-438 | after any sequential run no scope is in both tables |
| `GuardRuns.RunMakesAttempts` | src/runtime/hook-bridge.ts:179-203 | an evaluation changes the trigger times by its attempts, in order, and in no other way |
| `GuardRuns.CooldownSeparatesTriggers` | src/runtime/hook-bridge.ts:379-390 | however the attempts of evaluations interleave, a rule with a cooldown triggers at least that long after every earlier trigger of its id |
| `Redaction.RankedIffNoArrayCycle` | src/events/redaction.ts:18-20 | the termination measure exists exactly for graphs without a cycle through arrays only |
| `Redaction.ArrayCycleNestsForever` | src/events/redaction.ts:18-20 | on such a cycle the recursion nests without bound |
| `Redaction.Redact` | src/events/redaction.ts:12-41 | the recursion with its shared, growing set of visited records terminates and computes the specified tree and set |
| `PayloadRedaction.RedactPayload` | src/events/redaction.ts:43-57 | the payload goes through unchanged exactly when redaction is off or no field name is left after normalization; otherwise no listed key of the copy, at any depth, holds anything but the replacement, and without sharing every other path leads to the same scalar as before |
| `Redaction.RedactedIsClean` | src/events/redaction.ts:12-41 | for every graph, no sensitive key of the result, at any depth, has a value other than the replacement |
| `RedactionSharing.TreesAreRedacted` | src/events/redaction.ts:12-41 | if every record the result shows is visited there for the first time, redaction is the redaction of the tree the payload unfolds to |
| `RedactionSharing.SeenAfter` | src/events/redaction.ts:26-40 | redacting a value makes exactly the records seen that it leads to, even where it stops at a record seen before |
| `RedactionSharing.SharingIsHarmlessIff` | src/events/redaction.ts:12-41 | of any payload that unfolds to a tree, `__proto__` keys included, redaction is the redaction of that tree if and only if every record that the result shows is visited there for the first time |
| `Redaction.CleanIffUnchanged` | src/events/redaction.ts:31-40 | redaction leaves a tree as it is exactly when the tree is clean |
| `Redaction.OpenPathsSurvive` | src/events/redaction.ts:31-40 | a path without sensitive keys leads after redaction to the redaction of what it led to before, and to nothing new |
| `Redaction.SensitiveKeysSurvive` | src/events/redaction.ts:33-36 | a sensitive key keeps its place and holds the replacement; only `__proto__` is lost |
| `RedactedAgain.RedactingTwiceIsRedactingOnce` | src/events/redaction.ts:12-57 | redacting a payload that unfolds to what redaction built from any payload, and shows no record twice, changes nothing |
| `RedactedAgain.ResultIsPayload` | src/events/redaction.ts:12-57 | what redaction built from any payload is such a payload: in memory it can be laid out without sharing, and redacting it again gives the same |
| `RedactionSharing.SharedRecordIsReplaced` | src/events/redaction.ts:26-29 | an instance: a record reached a second time without a cycle is replaced |
| `Webhook.SendToWebhook` | src/broadcast/webhook.ts:52-166 | requests go on until a 2xx answer, a final client error or the attempt limit; success, last status, number of attempts and the waits between them |
| `Webhook.RequestedIff` | src/broadcast/webhook.ts:96-154 | a further request is made if and only if attempts are left and every answer so far was none, a server error, 429 or another status outside 400 to 499 |
| `Webhook.CappedExponentialIff` | src/broadcast/webhook.ts:150-154 | every later wait is the capped exponential one exactly when the multiplier is at least 1 or the first retry is not capped |
| `EventQueues.EventQueue.Enqueue` | src/broadcast/queue.ts:88-109 | a full queue loses its oldest event; a flush is asked for from four fifths of the capacity on |
| `EventQueues.EventQueue.SettleBatch` | src/broadcast/queue.ts:128-153 | a batch adds an attempt to exactly the events all webhooks failed and attempts are left for, and collects the positions of the others in order |
| `EventQueues.EventQueue.RemoveMarked` | src/broadcast/queue.ts:157-160 | the loop splices out whatever positions were collected, in reverse order of collection; what that leaves is the subject of the lemmas on removal |
| `EventQueues.EventQueue.Flush` | src/broadcast/queue.ts:114-168 | with in-order settling and arrivals that may evict, each batch marks exactly the items of the queue at that time that leave, and the marked positions are spliced out of the queue in the end; without an eviction every queued event is handled and the result is a stable filter of the queue, arrivals included |
| `EventQueues.EventQueue.MergeRestoredQueue` | src/broadcast/queue.ts:276-292 | restored events follow the queued ones unless already queued; the last maxSize remain |
| `QueueSteps.RemovesMarkedIffAscending` | src/broadcast/queue.ts:157-160 | of distinct items, the loop leaves exactly those at other positions if and only if the positions were collected in ascending order |
| `QueueEvictions.RemovesMarkedIffNoneEvictedSince` | src/broadcast/queue.ts:88-160 | with any arrivals and evictions during a flush, the removal leaves exactly the queued events that no mark is for if and only if no event was evicted after a marked event's batch had been taken |
| `DeliveryRuns.StaysQueuedIffAllFail` | src/broadcast/queue.ts:114-168 | over successive flushes with arrivals, a new event is still queued after n of them exactly when n is at most maxAttempts and all webhooks failed it in each; so it leaves after at most maxAttempts + 1 flushes |
| `DeliveryRuns.RequestsAreBounded` | src/broadcast/webhook.ts:52-166 | over any number of flushes, counting the attempts of the retry loop, an event causes at most maxAttempts * (maxAttempts + 1) requests to one webhook |
| `StatusSteps.ReplayIsNoted` | src/hooks/status-reducer.ts:81-95 | in every run, replaying the announcements since the last clear gives each agent's noted status |
| `StatusSteps.ReplayIsComputed` | src/hooks/status-reducer.ts:81-95 | after an evaluation the announcements since the last clear replay to each known agent's computed status |
| `StatusSteps.AnnouncementsNeverRepeat` | src/hooks/status-reducer.ts:86-92 | since the last clear no announcement for an agent equals the one before it |
| `StatusSteps.EqualAnnouncementsAreApart` | src/hooks/status-reducer.ts:81-99 | in every run, between two announcements of one status for an agent lies another announcement for it, or a clear |
| `StatusSteps.ClearRepeatsAnnouncement` | src/hooks/status-reducer.ts:97-99 | a run in which a clear makes two consecutive announcements for an agent equal |
| `StatusSteps.AnnouncedStatusOnlyAges` | src/hooks/status-reducer.ts:155-186 | without new input the announced status only moves from working to idle to sleeping |
| `StatusHistory.StatusFromHistory` | src/hooks/status-reducer.ts:44-186 | the status noted by an evaluation, read off the operations: offline if the last word says so, else error, else by the latest activity of the sessions not removed |
| `AgentStatus.AgentStatusReducer.EvaluateTransitions` | src/hooks/status-reducer.ts:81-95 | the loop notes every computed status and announces exactly the changes, in agent order |
| `AgentStatus.AgentStatusReducer.Clear` | src/hooks/status-reducer.ts:97-99 | no agent is known afterwards |
| `AgentStatus.AgentStatusReducer.ComputeStatus` | src/hooks/status-reducer.ts:115-186 | the status computed from the latest activity is the one defined by the existence of a recent session |
| `AgentStatus.AgentStatusReducer.ObserveActivity` | src/hooks/status-reducer.ts:44-54 | an activity with a session notes its time and ends the offline state; without one it only makes the agent known |
| `SubagentSteps.IdleAgainOnlyAfterActivity` | src/hooks/subagent-tracker.ts:49-95 | between two idle announcements of a child lies a spawn or an activity of it |
| `SubagentSteps.EndedIsSilent` | src/hooks/subagent-tracker.ts:61-95 | an ended child is not announced idle before it is spawned again |
| `SubagentSteps.IdleIsDeserved` | src/hooks/subagent-tracker.ts:79-95 | an idle announcement comes at least the idle time after the child's last spawn or activity |
| `SubagentHistory.IdleIffDue` | src/hooks/subagent-tracker.ts:19-95 | a child is announced idle if and only if it is alive, was last touched at least the idle time ago, and was not announced since |
| `SubagentHistory.RespawnMerges` | src/hooks/subagent-tracker.ts:19-47 | a respawn keeps the first spawn time and what was told before, and takes what is told now |
| `SubagentIdle.SubagentTracker.RegisterSpawn` | src/hooks/subagent-tracker.ts:19-47 | a respawn keeps the first spawn time and known details, takes new ones and clears idle and ended marks |
| `SubagentIdle.SubagentTracker.EvaluateIdleTransitions` | src/hooks/subagent-tracker.ts:79-95 | exactly the children that turn idle are marked and returned |

## Left out

- Sockets, files, processes, HTTP and timers as such: a send, a lock call or an action is a step with a given outcome; clocks are parameters.
- Acquire, heartbeat and release are one atomic step each, although they make several file calls (`src/transport/ownership.ts:70-119`).
- Process ids are never reused; runtime ids, host names and HMAC signatures are opaque.
- Transport mode `auto` and repeated `start`.
- Owner and follower event broadcast itself: handling an event is one step that succeeds or throws.
- `OwnerElection.RoleMatchesLock`: assumes that releases succeed; a failed unlink can leave a lock that names a runtime which gave up its role.
- `RelayDelivery.RunsOnceInOrder`: covers one follower and a fixed owner, with semantic dedupe off, retransmissions within the dedupe window, a queue that never fills and a handler that succeeds; `OwnerHandling.LostIffRepeatsUnhandled` is about failing handlers.
- `GuardRuns.GuardAgreesWithRules`: is for `tool_and_params` scope, enabled guards and JSON object parameters; paths are dotted property names, and rules may not compare with objects or arrays.
- Regular expressions, URL parsing, host lists and number comparison in guard rules are uninterpreted functions of the values read. An inherited property of an object or array reads as a function or a prototype; which names are inherited is a parameter.
- The hook bridge's stop flag, after which the guard has no opinion and events are ignored.
- The error texts in relay replies, and the last error kept with a queued event.
- Block reasons, their templates and the approval cache's rule and action ids.
- Locale collation is any total order; white space for blank checks is ECMAScript's; lower-casing and trimming in redaction are parameters.
- Values that are not JSON in the printers: undefined inside objects, dates, functions and non-finite numbers. Numbers are their text.
- Two calls of the clock within one uninterrupted check-and-set are taken as one instant.
- `SessionTracking.SessionTracker.EndSession`: does not say which session id and key it returns to stand for the ended record, because any id of the record may.
- `SessionTracking.SessionTracker.GetSessionProvenance`: does not describe the alias lists and parent fields of the snapshot, which are copied from the record.
- Which of several ids represents a record in the result of `getSession`, and the listing of active sessions.
- `DispatchEngine.HookBridgeDispatchEngine.EnqueueTask`: leaves out queue-pressure and failure-rate telemetry and how a coalesce key is built from event fields.
- `EventQueues.EventQueue.Flush`: takes deliveries of a batch as settling in index order, so evictions together with out-of-order settling are not covered; a second flush requested meanwhile is ignored, as the flag does. Persistence to disk is left out.
- `DeliveryRuns.StaysQueuedIffAllFail`: is about flushes during which nothing is evicted.
- Webhook headers, payload shape and URL validation (a flag).
- `AgentStatus.AgentStatusReducer.ComputeStatus`: leaves out the activity texts and counts of a transition.
- `TransportMetadata.OnlyTransportChanges`: metadata or a transport entry that is an array counts as having no fields.
- Config defaults, validation, environment parsing, event builders, hook registration, payload privacy, logging and the Python notifier.
