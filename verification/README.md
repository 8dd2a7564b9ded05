# Verified models of the frontend protocols and command parsers

This project models the parts of the repository whose correctness depends on interleavings, on shared
mutable state or on exact text and order rules, and proves what they promise.
`dafny verify dfyconfig.toml` checks everything (Dafny 4.11).

## What is modelled

**Shared resource cache** (`src/resources.ts`).
`Resources.dfy` is the cache as a transition system: entries are heap objects that requests, grace timers and
unsubscribe closures capture by reference. Steps are subscribe, unsubscribe, `ensure`, a request settling, a timer
firing, invalidate, reset, get and a clock tick, in any order. `ResourceCache.dfy` is the imperative code on real
objects, each call proved to take exactly the step of the system. `ResourceOwnership.dfy` is about consumer
counts and aborts, `ResourceWaiters.dfy` about the callers of `ensure`, `ResourceDangers.dfy` about requests aborted
too early, `ResourceCancellation.dfy` about unused requests that are never aborted (both over the frame lemmas of
`ResourceFrames.dfy`), `ResourceRefinement.dfy` relates the cache to one record per key and proves reset isolation,
`ResourceViews.dfy` is about what mounted components were shown.

**Session-list generation protocol** (`src/session-list-guard.ts`, its callers in `src/store.ts`,
`src/agent-init.ts`, `src/mode-sessions.ts`).
`SessionListGuard.dfy` is the counter, `SessionClient.dfy` the client state with the store's and startup's
continuations as methods over it, `SessionProtocol.dfy` adds a server log and a network on which every reply may be
late, reordered or lost. `SessionSafety.dfy` is the invariant, `SessionTheorems.dfy`, `SessionDisplay.dfy`,
`SessionRemovals.dfy`, `SessionTitles.dfy`, `SessionSpaces.dfy`, `SessionSelection.dfy` and `SessionEffects.dfy` the
results. `AgentInit.dfy` is the single-flight
wrapper, `ModeSessions.dfy` the selection rules.

**Live streaming pipeline** (`src/stream-fast-path.ts`, `src/stream-accumulator.ts`, `src/run-events.ts`,
`src/run-phase.ts`, with the batch side of `src/store.ts`): `RunPhase.dfy`, `RunEvents.dfy`,
`StreamAccumulator.dfy`, `StreamFastPath.dfy` and, end to end, `StreamPipeline.dfy` on parsed events and `StreamWire.dfy`
on raw frames.

**Text, order and list rules**: `CloneUrl.dfy`, `HistoryRefs.dfy`, `LogView.dfy`, `TextLines.dfy`, `Versions.dfy`,
`KeySort.dfy`, `ActivityGroups.dfy`; `Common.dfy`, `Text.dfy` and `Distinct.dfy` hold what they share.

## Where code, comments and expectations part

The models follow the code. Each of these is a lemma, with the exact condition under which the promise holds:

- `ensure` serves an expired value only after the refresh settles (src/resources.ts:279-282), not at once as the comment
  at src/resources.ts:212-213 says (`ResourceRefinement.HitIff`).
- An `ensure` caller is not a consumer (src/resources.ts:240-245), unlike src/resources.ts:52-54
  (`ResourceWaiters.DocumentedCountIff`), so every abort of a running request hits one that some caller waits for
  (`AbortHitsWaiting`).
- Unused requests do leak, unlike src/resources.ts:55-58, in exactly three ways: started for a key without
  subscribers, lost by a reset before the grace timer fires, or left by the last subscription of an entry that a reset
  replaced (`ResourceCancellation.NextLeaksIff`, `UnownedIsNeverAborted`, `OrphanIsNeverAborted`,
  `ResetLosesRequest`). The third also happens without a replacement where stale releases left the counter wrong.
- A component that is subscribed when its key is reset, or whose listener is removed by another subscription that
  shares it, is never told again, unlike src/resources.ts:292-294 (`ResourceViews.NextToldIff`,
  `ResetFreezesSubscribers`, `ResetFreezesHappens`).
- A reset lets the unsubscribe of an old subscription release a consumer of the new entry, and a request that is
  still needed can be aborted, at that unsubscribe or at a later ordinary one (`ResourceOwnership.NextOwnedIff`,
  `ResetBreaksOwnership`, `ResourceDangers.NextEndangersIff`, `StaleThenOrdinary`).
- An invalidation while a request is in flight is lost (`ResourceRefinement.InvalidateForcesFetchIff`,
  `InvalidationLostInFlight`), unlike src/resources.ts:328-331.
- A failed refresh of a resource that has data reads "stale", not "error" (`ResourceRefinement.SnapshotContract`), unlike
  src/resources.ts:15.
- "Ready" says nothing of the TTL, unlike src/resources.ts:13: expired data keeps reading "ready"
  (`ResourceViews.ReadyOutlivesTtl`, `ResourceRefinement.FreshIff`).
- A listener does not learn of an invalidation after a null delivery (`ResourceViews.NextCoherentIff`,
  `NullThenInvalidateIsUnseen`).
- A create whose reply arrives after the reply of the delete of the same session puts the session back until the
  next list lands (`SessionDisplay.NextHauntsIff`, `LateCreateHappens`, `LandingExorcises`).
- Two renames acknowledged out of commit order leave the older title displayed until the next list lands
  (`SessionTitles.NextTitlesIff`, `RenamesOvertake`, `LandingUpdatesTitles`).
- A create acknowledged after a mode switch enters the other mode's list and memory, and a switch shows the old mode's
  rows until the next list lands (`SessionClient.CreateStaysInSpaceIff`, `SessionSpaces.NextOwnIff`,
  `SessionDisplay.LateCreateCrossesSpaces`).
- A batch dropped because its session is not active any more leaves its ids in the ledger
  (`StreamPipeline.LedgerIsQueuedPlusLeaked`, `FlushEmptiesLedgerIff`), unlike src/stream-fast-path.ts:72-75.
- Content that arrives while the queued events will park the run and leave it resuming overtakes the confirmation it
  should have followed and leaves the phase behind; from any other state a batched confirmation does no harm
  (`StreamPipeline.ReceiveSettlesIff`, `OvertakingFromIff`, `OvertakingResumeFails`).
- The reference list keeps the earliest four, not the most recent (`HistoryRefs.NewestIsKeptIff`, `FirstIsKeptIff`), unlike
  src/history-ref.ts:27-28.
- Clearing an empty log view drops the marker of an earlier clear, and a later line with the marker's text hides the
  lines before it (`LogView.NextKeepsIff`, `PollShowsIff`).
- A repository named `x.git` does not survive printing without a further suffix (`CloneUrl.BareRoundTripIff`).
- Version components wrap at 64 bits and pre-release suffixes are ignored (`Versions.VersionRoundTripIff`,
  `AgreesWithSection11Iff`).

## Model

| member | source | states |
|---|---|---|
| `ResourceCache.Cache.EntryFor` | src/resources.ts:99-118 | `entry(key)`: an existing entry object is returned as it is, a missing one is created blank and becomes reachable |
| `ResourceCache.Cache.AcquireConsumer` | src/resources.ts:122-131 | the entry object counts one consumer more and its armed timer is cleared; nothing else changes |
| `ResourceCache.Cache.ReleaseConsumer` | src/resources.ts:137-160 | one consumer less, never below zero; the last one to leave a request in flight arms one timer that captures the entry object and its controller |
| `ResourceCache.Entry.TakeSnapshot` | src/resources.ts:162-191 | the six-way snapshot of one entry object |
| `ResourceCache.Cache.Notify` | src/resources.ts:193-204 | every listener of the present entry of the key, in whatever order, is called with its snapshot, and nobody else |
| `ResourceCache.Cache.Ensure` | src/resources.ts:215-283 | joins the request in flight, or answers from the cache, or starts one request and notifies, exactly as the transition system says |
| `ResourceCache.Cache.Settle` | src/resources.ts:249-274 | the continuation writes only into the entry object it captured, then notifies by key |
| `ResourceCache.Cache.FireTimer` | src/resources.ts:149-158 | the callback aborts the captured controller only with no consumer and a request in flight on the captured entry object |
| `ResourceCache.Cache.Peek` | src/resources.ts:288-290 | a snapshot without starting a request |
| `ResourceCache.Cache.Subscribe` | src/resources.ts:296-313 | listener added, consumer counted, first snapshot emitted, closure over the entry object recorded |
| `ResourceCache.Cache.Unsubscribe` | src/resources.ts:315-325 | the closure takes its listener off the captured entry object once and releases by key |
| `ResourceCache.Cache.Invalidate` | src/resources.ts:332-338 | only the time stamp goes |
| `ResourceCache.Cache.Reset` | src/resources.ts:344-353 | the timer is cleared and the entry object is no longer reachable, but lives on for its continuations |
| `Resources.ExecKeeps` | src/resources.ts:122-160 | invariant of every run, resets included: one unsettled request per entry, controller and request belong together, an armed timer means a reachable entry with zero consumers |
| `Resources.ExecGrows` | src/resources.ts:236-276 | nothing captured by a continuation is ever rebound and nothing settled becomes pending again |
| `Resources.NextEntries` | src/resources.ts:344-353 | which keys a step makes reachable; only a reset takes one out |
| `ResourceOwnership.NextOwnedIff` | src/resources.ts:313-325 | a step keeps "`consumers` counts the live subscriptions of the entry" if and only if it is not the unsubscribe of a subscription whose entry was replaced by a reset while the key's present entry has a consumer |
| `ResourceOwnership.ConsumersCountSubscriptions` | src/resources.ts:51-59 | over every run without such an unsubscribe, resets included, each reachable entry counts exactly its live subscriptions |
| `ResourceOwnership.ResetFreeConsumers` | src/resources.ts:51-59 | in every reset-free run `consumers` of a key is the number of its subscriptions not yet ended |
| `ResourceWaiters.DocumentedCountIff` | src/resources.ts:51-54 | in every reset-free run subscribers plus waiting `ensure` callers, the documented count, is the actual one if and only if no request is in flight for the key |
| `ResourceWaiters.WaitingIffInFlight` | src/resources.ts:222-227 | in every reset-free run an `ensure` caller is waiting for the key if and only if a request is in flight for it |
| `ResourceWaiters.AbortHitsWaiting` | src/resources.ts:51-58 | in every run, resets included, an abort of a running request hits one that at least one `ensure` caller is waiting for |
| `ResourceWaiters.StarterOf` | src/resources.ts:236-276 | every request was started by one `ensure` call of its key |
| `ResourceOwnership.DoubleUnsubscribe` | src/resources.ts:313-317 | ending a subscription twice is ending it once |
| `ResourceOwnership.LastLeaverArms` | src/resources.ts:133-147 | an unsubscribe leaves a timer armed exactly when nobody is subscribed any more and a request is in flight |
| `ResourceOwnership.ArmingCapturesInFlight` | src/resources.ts:146-158 | the timer captures the request in flight at that moment |
| `ResourceOwnership.AbortHitsOnlyCaptured` | src/resources.ts:149-157 | an abort is delivered only at zero consumers and only to the captured request; it reaches a running request exactly when the captured one still runs |
| `ResourceOwnership.NeverAbortsNewer` | src/resources.ts:147-157 | over every continuation a timer never aborts a request started after it was armed |
| `ResourceOwnership.NeverAbortsNeeded` | src/resources.ts:53-58 | an abort of a running request finds no live subscription on its entry |
| `ResourceOwnership.RunNeverAbortsNeeded` | src/resources.ts:53-58 | the same at every firing of every run without a stale release |
| `ResourceOwnership.StaleReleaseAborts` | src/resources.ts:137-160 | the failing family: a stale release of the only consumer makes the timer abort a request that is still subscribed to |
| `ResourceDangers.NextEndangersIff` | src/resources.ts:137-160 | in every world of the invariant, counters right or not, a step lets a timer abort a running request that a subscriber still needs if and only if it ends a subscription whose key has a present entry with one consumer counted and a request in flight, and another live subscription is left on that entry |
| `ResourceDangers.NeverEndangered` | src/resources.ts:53-58 | so over every run without such an unsubscribe, stale ones included, no timer that fires aborts a request somebody is subscribed to |
| `ResourceDangers.CountedEndangersIff` | src/resources.ts:137-160 | where the counters are right these are exactly the stale releases of the one consumer counted on an entry with a request in flight |
| `ResourceDangers.StaleThenOrdinary` | src/resources.ts:315-325 | a stale release of one of two consumers does no harm yet, but then an ordinary unsubscribe of either endangers the request |
| `ResourceOwnership.ResetBreaksOwnership` | src/resources.ts:344-353 | a reachable run in which a reset leads to that abort |
| `ResourceCancellation.NextLeaksIff` | src/resources.ts:55-58 | a step keeps every request in flight without subscribers, on every entry object that was ever created, aborted or captured by an armed timer if and only if it is none of three: an `ensure` that starts one on an entry nobody is subscribed to, a reset of a key whose unused request was not aborted yet, the end of the last subscription of an entry object that was replaced or whose counter does not go down to zero with it |
| `ResourceCancellation.CountedLeaksIff` | src/resources.ts:55-58 | where the counters are right the third is the end of the last subscription of a replaced entry object |
| `ResourceCancellation.NothingLeaks` | src/resources.ts:55-58 | so over every run without such a step every running request has a live subscription on its entry object, was aborted, or is aborted by an armed timer when it fires |
| `ResourceCancellation.DoomedIsAborted` | src/resources.ts:149-157 | a captured request is aborted when its timer fires |
| `ResourceCancellation.OrphanIsNeverAborted` | src/resources.ts:344-353 | a request whose entry object is unreachable is never aborted any more, in any continuation |
| `ResourceCancellation.LosingResetIsFinal` | src/resources.ts:344-353 | so the request a leaking reset loses keeps running and is never aborted |
| `ResourceCancellation.ResetLosesRequest` | src/resources.ts:344-353 | a reachable run of four calls: mount, `ensure`, unmount, reset; the request runs, nobody is subscribed, no timer is armed, and no continuation aborts it |
| `ResourceCancellation.UnownedIsNeverAborted` | src/resources.ts:240-245 | a request started without subscribers is never aborted, in any continuation, until somebody subscribes to its key |
| `ResourceRefinement.OrphanIsIsolated` | src/resources.ts:249-274 | a response to a request of an unreachable entry changes no other entry and nothing any reader sees |
| `ResourceRefinement.OrphanedForever` | src/resources.ts:99-118 | an entry that became unreachable stays so in every continuation |
| `ResourceRefinement.ResetIsolation` | src/resources.ts:344-353 | after a reset at any point of any run, a response to a request started before it changes nothing later readers of any key see, however late it arrives |
| `ResourceRefinement.CacheRefinesCells` | src/resources.ts:215-283 | the shared mutable entries refine one record per key: after every run a reader sees the record its observed events define |
| `ResourceRefinement.OneUnsettledPerEntry` | src/resources.ts:18-19 | at most one unsettled request per entry |
| `ResourceRefinement.DataIsLatestSuccess` | src/resources.ts:249-258 | `data` is the value of the latest success since the last reset; the time stamp is that success's if and only if the key was not invalidated since |
| `ResourceRefinement.FailureKeepsGood` | src/resources.ts:259-274 | a failed or aborted refresh changes neither data nor time stamp of any key |
| `ResourceRefinement.SnapshotContract` | src/resources.ts:162-191 | exactly when a snapshot is "unavailable", "loading", "ready", "stale" and "error"; data always as they are, the time stamp with "ready" and "stale" only, the message with "error" only |
| `ResourceRefinement.InFlightIff` | src/resources.ts:236-274 | after every run a request is in flight for a key if and only if it was started and neither settled nor reset nor followed by another since |
| `ResourceRefinement.ErrorIsLatestFailure` | src/resources.ts:259-274 | after every run the error is the message of the latest outcome since the last reset if that was a failure, a fixed text for what is no `Error`, and none otherwise |
| `ResourceRefinement.SnapshotShowsLatestSuccess` | src/resources.ts:162-191 | after every run a snapshot shows the value of the latest success since the last reset, null exactly when that value was null |
| `ResourceRefinement.SnapshotShowsLatestStamp` | src/resources.ts:162-191 | after every run a "ready" or "stale" snapshot carries the time stamp of the latest success, none if the key was invalidated since, and every other snapshot carries none |
| `ResourceRefinement.NeverBlanksAfterSuccess` | src/resources.ts:22-23 | once a request succeeded since the last reset no snapshot shows null data, for non-null values |
| `ResourceRefinement.FreshIff` | src/resources.ts:13 | after every run the data a snapshot shows, ready or not, are fresh if and only if the latest success since the last reset is not null, younger than the lifetime listed for its key and not invalidated since |
| `ResourceRefinement.HitIff` | src/resources.ts:79-95 | after every run `ensure` answers without a request if and only if it is not forced, no request is in flight and the latest success is not null, younger than the lifetime listed for its key and not invalidated since; an expired value is never served at once |
| `ResourceRefinement.FetcherCalls` | src/resources.ts:215-283 | requests started = `ensure` calls - joins - fresh hits, over every run |
| `ResourceRefinement.JoinersShareOneAnswer` | src/resources.ts:222-227 | every joining caller waits for the one request of the entry it looked up, and the entry object it resolves from receives that request's outcome, resets or not |
| `ResourceRefinement.InvalidateForcesFetchIff` | src/resources.ts:328-338 | the next `ensure` after an invalidation goes to the network, whatever happens in between, if and only if no request was in flight at the invalidation |
| `ResourceRefinement.InvalidationLostInFlight` | src/resources.ts:249-254 | otherwise the request under way settles, stamps its old answer fresh and it is served |
| `ResourceViews.ReadyOutlivesTtl` | src/resources.ts:13 | a ready resource stays ready however much time passes, and is fresh, as documented, if and only if its stamp is younger than the TTL |
| `ResourceViews.NextTells` | src/resources.ts:193-204 | a step calls exactly the new subscriber, or all listeners of the present entry when a request starts or settles, each with the whole snapshot, time stamp included, as the step leaves it |
| `ResourceViews.ViewsAreCurrent` | src/resources.ts:193-204 | after every run without an unseen invalidation every listener of a reachable entry was last shown exactly the present state, data and error |
| `ResourceViews.NextCoherentIff` | src/resources.ts:332-338 | a step keeps every listener's picture current if and only if it does not invalidate a resource with listeners whose latest value was null and that shows no error |
| `ResourceViews.NullFreeViewsAreCurrent` | src/resources.ts:193-204 | in particular after every run whose requests never deliver null |
| `ResourceViews.NextToldIff` | src/resources.ts:292-326 | a step keeps every live subscription registered on the present entry of its key if and only if it neither resets a key with a live subscription nor ends one of two live subscriptions that share their listener |
| `ResourceViews.SubscribersAreCurrent` | src/resources.ts:292-294 | after every run without such steps every subscription not yet ended was last shown the present picture of its key |
| `ResourceViews.CutOffIsSilent` | src/resources.ts:193-204 | a component cut off is shown nothing more, in every continuation, until it subscribes again |
| `ResourceViews.ResetFreezesSubscribers` | src/resources.ts:344-353 | in particular a reset freezes what its subscribers show |
| `ResourceViews.ResetFreezesHappens` | src/resources.ts:344-353 | a reachable run: the resource is ready, the subscription alive, and the component still shows loading |
| `ResourceViews.NullThenInvalidateIsUnseen` | src/resources.ts:332-338 | a null delivery followed by an invalidation is such a case, whoever listens |
| `SessionListGuard.Guard.Begin` | src/session-list-guard.ts:39-42 | the new ticket is the only active one |
| `SessionListGuard.Guard.Invalidate` | src/session-list-guard.ts:44-46 | no ticket handed out so far stays active |
| `SessionClient.Store.BeginRefresh` | src/store.ts:2387-2398 | mode captured, ticket taken |
| `SessionClient.Store.LandRefresh` | src/store.ts:2403-2432 | the list lands only in its mode and with the active ticket, and the selection is re-resolved inside it |
| `SessionClient.Store.CreateAcknowledged` | src/store.ts:2811-2893 | invalidates, lists the session first and once, selects it |
| `SessionClient.Store.DeleteAcknowledged` | src/store.ts:2978-3004 | invalidates, takes the id out, re-resolves the selection inside the mode |
| `SessionClient.Store.RenameAcknowledged` | src/store.ts:3941-3951 | invalidates and changes one title |
| `SessionClient.Store.SetMode` | src/store.ts:3699-3748 | remembers the old space's selection, invalidates, recalls the new one's; the same mode is a no-op |
| `SessionClient.Store.SelectSession` | src/store.ts:2895-2916 | selection and per-mode memory; the same id is a no-op |
| `SessionClient.Store.InitListed` | src/agent-init.ts:56-126 | startup's list: create first, delegate to a refresh, or apply |
| `SessionClient.Store.InitCreated` | src/agent-init.ts:71-126 | startup's own create: the ticket is read before the own invalidation, then apply or delegate |
| `SessionClient.RetitledAt` | src/store.ts:3947-3951 | a rename keeps every row in place and changes one title |
| `SessionClient.CreateStaysInSpaceIff` | src/store.ts:2843-2855 | the new session is first, unique and selected; the present mode's memory stays inside its space if and only if the session belongs to the present mode |
| `SessionDisplay.LateCreateCrossesSpaces` | src/store.ts:2843-2855 | a reachable run in which a create acknowledged after a mode switch is listed, selected and remembered in the other mode |
| `SessionSelection.NextOpensIff` | src/store.ts:2414-2423 | every step leaves open exactly: the session picked, the one remembered for the space switched to, the one just created, the open one as long as the shown list holds it in its space, or else the first of that space |
| `SessionSelection.NextSelectsIff` | src/store.ts:2414-2423 | a step changes the open conversation if and only if it picks another one, switches to a space that remembers another one, acknowledges a create of the user, or shows a list - landed, startup's, or what a delete leaves - that neither holds the wanted session nor has the open one first |
| `SessionSelection.LandingKeepsOpen` | src/store.ts:2414-2423 | a list that lands and still holds the open conversation leaves it open |
| `SessionSelection.OpenStaysOpen` | src/store.ts:2403-2432 | over every run without such a step the conversation stays open |
| `SessionEffects.NextShows` | src/store.ts:2403-2432 | every step leaves displayed exactly: the list that lands as it is, an acknowledged create in front of the others, the rows without a deleted one in their order, one row with its new title, or what was there |
| `SessionEffects.NextAsksIff` | src/store.ts:3735-3789 | a step asks for a list if and only if it is a refresh, a startup, a real mode switch or an answer startup may not use; the request is for the present mode with the newest ticket |
| `SessionEffects.NextSendsIff` | src/agent-init.ts:56-78 | a step sends a mutation if and only if the user asks for one or startup's valid list is empty, and then the create is in the mode asked for |
| `SessionSpaces.NextOwnIff` | src/store.ts:3699-3789 | a step lists a session of the other space if and only if it switches modes with sessions on display or delivers the reply of a create sent from the other mode |
| `SessionSpaces.SpacesStayApart` | src/mode-sessions.ts:3-7 | over every run without such steps the sidebar lists the present space only |
| `SessionSpaces.LandingSeparates` | src/store.ts:2403-2432 | a landing list of the present mode puts it right |
| `SessionClient.ShownSelection` | src/agent-init.ts:110-126 | an applied selection lies in the list and the mode, null exactly when that space is empty; the other mode's memory is untouched |
| `SessionSafety.RunIsSound` | src/session-list-guard.ts:13-18 | the protocol invariant over every interleaving of reads, mutations, losses and late deliveries |
| `SessionTheorems.LandedListsArePast` | src/session-list-guard.ts:13-18 | every landed list is exactly the server's content at a version past every mutation acknowledged before |
| `SessionTheorems.LandedInTicketOrder` | src/session-list-guard.ts:33-52 | landed tickets strictly increase and landed versions never go back |
| `SessionTheorems.NoListResurrects` | src/session-list-guard.ts:7-11 | no list landing after an acknowledged delete holds the deleted session |
| `SessionTheorems.NoListDropsCreated` | src/store.ts:2393-2397 | every list of its space landing after an acknowledged create holds the created session |
| `SessionTheorems.NoListRevertsRename` | src/store.ts:3943-3945 | no list landing after an acknowledged rename shows a title from before it |
| `SessionTitles.NextTitlesIff` | src/store.ts:3941-3951 | a step makes a displayed title older than an acknowledged one if and only if it delivers the reply of a titling after the reply of a later one, its title not being given again since |
| `SessionTitles.TitlesNeverGoBack` | src/store.ts:3941-3951 | in every run without such a reply no displayed title is older than an acknowledged one |
| `SessionTitles.RenamesOvertake` | src/store.ts:3941-3951 | a reachable run: two renames acknowledged in reverse order leave the older title displayed |
| `SessionTitles.LandingUpdatesTitles` | src/store.ts:2403-2432 | the next landing list brings every title up to date |
| `SessionProtocol.RowTitle` | src/store.ts:3943-3945 | a listed title is the one set by the last mutation that titled the session |
| `SessionTheorems.ModeCheckIsRedundant` | src/store.ts:2408-2413 | an active ticket was taken in the present mode |
| `SessionTheorems.ActiveIffNothingHappened` | src/session-list-guard.ts:25-30 | after any further steps a ticket is active if and only if none of them began a list, acknowledged a mutation or switched the mode |
| `SessionTheorems.AcknowledgementPoisons` | src/agent-init.ts:79-85 | an acknowledged mutation, startup's eager create included, makes every list request in flight unlandable for good |
| `SessionTheorems.GenerationMovesIff` | src/session-list-guard.ts:38-46 | exactly those steps move the counter |
| `SessionDisplay.CreatedStaysDisplayed` | src/session-list-guard.ts:7-18 | in every run an acknowledged, undeleted session is displayed whenever the list applied last was of its space |
| `SessionRemovals.NextTakesIff` | src/store.ts:2403-2432 | a step takes a displayed, acknowledged, undeleted session off the display if and only if a list or startup create of the other space replaces the display |
| `SessionRemovals.StaysDisplayed` | src/session-list-guard.ts:7-18 | over every continuation without that, before any list was applied too, it stays on display |
| `SessionRemovals.AcknowledgementShows` | src/store.ts:2843-2851 | an acknowledged create is on display, unless it is startup's own and was overtaken |
| `SessionRemovals.RowCreated` | src/session-list-guard.ts:7-11 | the server lists only sessions created in the space that was asked for |
| `SessionDisplay.NextHauntsIff` | src/store.ts:2843-2850 | a step brings an acknowledged-deleted session back if and only if it delivers the reply of that session's create after the reply of its delete |
| `SessionDisplay.DeletedStaysAway` | src/session-list-guard.ts:7-11 | in every run without such a late reply a deleted session is never displayed again |
| `SessionDisplay.LateCreateHappens` | src/store.ts:2843-2850 | a reachable run with such a late reply |
| `SessionDisplay.LandingExorcises` | src/store.ts:2403-2432 | the next landing list removes it again |
| `SessionDisplay.NextMemory` | src/mode-sessions.ts:3-5 | no step changes the selection remembered for the space that is not displayed, and the displayed one is the remembered one |
| `SessionDisplay.ReturnRestoresSelection` | src/mode-sessions.ts:3-5 | leaving a space at any point of any run, doing anything in the other and coming back selects what was selected before |
| `SessionDisplay.ActiveIsRemembered` | src/store.ts:3670-3686 | in every run the active session is the one remembered for the present mode |
| `SessionDisplay.StartupListIsSafe` | src/agent-init.ts:56-126 | a list startup applies is past every acknowledged mutation, of the present mode, with the selection inside and the other memory untouched |
| `SessionDisplay.StartupCreateIsSafe` | src/agent-init.ts:61-126 | an applied eager create: nothing was acknowledged since the empty list, the session is the whole list and selected |
| `SessionProtocol.DeletedIsGone` | src/session-list-guard.ts:7-11 | the server lists no deleted session again, ids never being reused |
| `SessionProtocol.CreatedIsListed` | src/session-list-guard.ts:7-11 | the server lists every created, undeleted session of the space |
| `AgentInit.Initializer.InitializeAgent` | src/agent-init.ts:156-180 | joins, skips or starts a run |
| `AgentInit.Initializer.Settle` | src/agent-init.ts:167-174 | a success stamps the time, a failure clears it |
| `AgentInit.SkipsIff` | src/agent-init.ts:161-165 | a call does nothing if and only if no promise is held and the last run that ended succeeded, at a positive time, less than 30 s ago |
| `AgentInit.JoinsIff` | src/agent-init.ts:156-180 | a call joins if and only if some run was started and its promise was not dropped since it ended |
| `AgentInit.SingleFlight` | src/agent-init.ts:156-180 | a run starts only when none is under way, calls in between join it, and a failure allows the next |
| `AgentInit.RunsAreCounted` | src/agent-init.ts:156-180 | runs started = calls - joins - skips |
| `ModeSessions.ResolvedSelection` | src/mode-sessions.ts:40-57 | selection in list and space, null iff the space is empty, remembered id kept iff still there |
| `ModeSessions.ReplacementIsNewest` | src/mode-sessions.ts:40-57 | otherwise the first session of the space |
| `ModeSessions.SpacesPartition` | src/mode-sessions.ts:20-38 | every session is in exactly one space |
| `ModeSessions.PrefilterIsRedundant` | src/agent-init.ts:20-28 | filtering the space first changes nothing |
| `RunPhase.CompleteIffDoneThenConfirmed` | src/run-phase.ts:47-48 | "complete" if and only if an effective `done` was followed by an effective `history_confirmed` and no run started since |
| `RunPhase.TerminalLeavesOnlyByStart` | src/run-phase.ts:51-51 | a terminal phase survives a continuation if and only if no run starts in it |
| `RunPhase.ParkedIsFrozen` | src/run-phase.ts:65-129 | "paused" persists through a continuation if and only if it holds none of the five releasing events |
| `RunPhase.PhaseIffEntered` | src/run-phase.ts:52-134 | after any history a run reads a phase if and only if one of the events that lead into it arrived in one of the phases listed for that event, and none of the events listed as ending the phase came since: "error" and "aborted" from a live or paused run until the next start, "generating" by an answer or `resumed`, "thinking" by reasoning or first activity, and so on for every phase |
| `RunPhase.IdleIffNeverStarted` | src/run-phase.ts:52-134 | "idle" if and only if no run was ever started |
| `RunPhase.NoDemotion` | src/run-phase.ts:44-46 | thinking after generating needs a `run_started` or `resume_requested` in between |
| `RunPhase.DeltaCommutesIff` | src/run-phase.ts:85-95 | a streamed delta commutes with an event from every phase if and only if the event is not `run_started`, `resume_requested` or `resumed`; behind the start of a run an answer reads "generating" and reasoning "thinking" |
| `RunPhase.DeltaOvertakesQueue` | src/stream-fast-path.ts:11-28 | a delta may overtake a whole queue of the other events |
| `RunEvents.NormalizeToolAllowlist` | src/run-events.ts:179-207 | the loop with its `seen` set computes the case-insensitively distinct trimmed names |
| `RunEvents.AllowlistKeys` | src/run-events.ts:179-207 | no name is lost or invented, up to case |
| `RunEvents.FirstSpellingIsKept` | src/run-events.ts:197-203 | of spellings differing in case the earliest is kept |
| `RunEvents.AllowlistIdempotent` | src/run-events.ts:177-178 | unique up to case, and a second normalisation changes nothing |
| `StreamAccumulator.Accumulator.ApplyResponseSnapshot` | src/stream-accumulator.ts:43-52 | an empty or missing caption is ignored, another one replaces what is pending for the answer only |
| `StreamAccumulator.Accumulator.ApplyReasoningSnapshot` | src/stream-accumulator.ts:55-64 | the same for the reasoning stream |
| `StreamAccumulator.Accumulator.Flush` | src/stream-accumulator.ts:72-82 | hands over what is pending and forgets it |
| `StreamAccumulator.FlushStreaming` | src/store.ts:999-1031 | an empty accumulator leaves the display alone, otherwise the pending pair is merged into it |
| `StreamAccumulator.DisplayRefinesLatest` | src/stream-accumulator.ts:43-96 | for every interleaving, display overlaid with pending equals the last non-empty caption of each stream |
| `StreamAccumulator.FinalDisplayIsLatest` | src/stream-accumulator.ts:84-96 | after a last flush the display is exactly those captions |
| `StreamAccumulator.FlushNeverBlanks` | src/stream-accumulator.ts:84-96 | a flush that changed one stream never blanks the other |
| `StreamAccumulator.ConflationUnobservable` | src/stream-accumulator.ts:11-18 | dropping superseded captions gives the same final display for every flush schedule |
| `StreamAccumulator.ReplayUnobservable` | src/stream-accumulator.ts:11-18 | redelivering the latest captions does too |
| `StreamFastPath.StreamingFastPath.Deliver` | src/stream-fast-path.ts:93-115 | takes exactly "response", "assistant_delta", "reasoning" and "thinking_delta", records the id, and for a non-empty caption folds the first two as the answer and the others as reasoning, with the phase event of the same kind |
| `StreamFastPath.StreamingFastPath.ConsumeBatchEvent` | src/stream-fast-path.ts:120-122 | skips exactly the recorded ids and forgets each on reading |
| `StreamFastPath.StreamingFastPath.Reset` | src/stream-fast-path.ts:126-128 | empties the ledger |
| `StreamPipeline.FastPathMirrorsBatch` | src/stream-fast-path.ts:89-92 | the callbacks change phase and display exactly as the batched arm would |
| `StreamPipeline.DrainSkipsCritical` | src/store.ts:1257-1263 | draining skips every recorded content event, handles every other one in order, and drops exactly those ids |
| `StreamPipeline.ExactlyOnce` | src/stream-fast-path.ts:71-129 | for every interleaving with distinct ids each content event is folded once in order, none reaches the batch consumer, the display shows the latest captions |
| `StreamPipeline.LedgerIsQueuedPlusLeaked` | src/stream-fast-path.ts:71-129 | in every run with distinct ids the ledger is exactly the queued content ids plus, disjointly, those of batches dropped since the last disconnect |
| `StreamPipeline.HandledAtMostOnce` | src/store.ts:1257-1263 | in every run, drops and disconnects included, the batch consumer handles each other event at most once and in arrival order |
| `StreamPipeline.NoPlainEventLost` | src/store.ts:1257-1263 | when no batch is dropped, those handled and those still queued are all of them |
| `StreamPipeline.LedgerSelfDrains` | src/stream-fast-path.ts:72-75 | in every run without a dropped flush, disconnects included, the ledger is exactly the queued content ids, so a drained queue means an empty ledger |
| `StreamPipeline.FlushEmptiesLedgerIff` | src/store.ts:1180-1187 | in every run a flush leaves the ledger empty if and only if nothing leaked since the last disconnect and its session is still active or no content was queued |
| `StreamPipeline.EarlyDeliveryPreservesPhase` | src/stream-fast-path.ts:11-28 | when no batch is dropped and no content overtakes a queued resume, every batching schedule settles on the phase of arrival order |
| `StreamPipeline.EarlyDeliverySettles` | src/stream-fast-path.ts:11-28 | with dropped batches and disconnects too: it settles on the phase of the surviving events in arrival order, and is at any time that of everything but the queued plain events |
| `StreamPipeline.ReceiveSettlesIff` | src/stream-fast-path.ts:11-28 | receiving one event settles on the phase of arrival order if and only if it is not content arriving while the queued events will park the run and leave it resuming |
| `StreamPipeline.NextSettlesIff` | src/stream-fast-path.ts:11-28 | the same for every step of every state: that is the only way the phase is left behind |
| `StreamWire.DisplayByName` | src/run-events.ts:47-91 | for every interleaving of frames with distinct ids the display with what is pending shows the last non-empty caption named "response" or "assistant_delta" as the answer and the last named "reasoning" or "thinking_delta" as reasoning |
| `StreamWire.BatchShowsIff` | src/store.ts:2089-2141 | a batch flush moves what is pending to the display if and only if the batch holds a "done", "complete", "aborted" or "error" frame |
| `StreamWire.EndShowsAll` | src/store.ts:2089-2141 | and then the display itself shows those last captions |
| `StreamWire.PhaseByName` | src/store.ts:1854-2140 | when no content overtakes a queued resume, drops and disconnects included, the phase settles on that of the phase events read off the wire names of the surviving frames in arrival order |
| `StreamWire.LosslessPhaseByName` | src/store.ts:1854-2140 | which are all frames when no batch is dropped |
| `RunPhase.DeltaOvertakesIff` | src/run-phase.ts:52-134 | from a given phase a delta may overtake a given queue if and only if the run is not parked on the way and resuming at its end |
| `StreamPipeline.OvertakingResumeFails` | src/store.ts:1947-1948 | content overtaking a resume confirmation leaves the run "resuming" |
| `StreamPipeline.OvertakingIsSafeIff` | src/stream-fast-path.ts:11-28 | a batched event may be overtaken from every phase if and only if it is not a resume confirmation |
| `StreamPipeline.OvertakingFromIff` | src/store.ts:1947-1948 | from a given phase, unless it is one and the run is paused |
| `StreamPipeline.OvertakingWireIff` | src/store.ts:1910-1955 | the same on wire names: every event but the four content kinds, unless it is the `status` with detail `resuming` of a paused run |
| `Text.TrimIff` | src/clone-url.ts:15 | trimming takes away exactly the blanks around a text that starts and ends with none |
| `Text.LowerIff` | src/clone-url.ts:15 | lower-casing gives the one text without capitals that the text is a casing of |
| `CloneUrl.ParseIffAddress` | src/clone-url.ts:14-33 | a text parses to owner, repository and ssh flag if and only if, in any case and with any blanks around it, it is "git@github.com:" (ssh), "https://github.com/" or "github.com/", the two names over letters, digits, "_", "." and "-" with a slash between, and an optional `.git` and slash, the suffix being there if the name itself ends in it |
| `CloneUrl.PrintParseRoundTrip` | src/clone-url.ts:14-33 | printing with `.git`, with or without a slash, parses back for each of the three sites written out |
| `CloneUrl.BareRoundTripIff` | src/clone-url.ts:18-25 | without the suffix it does if and only if the name does not itself end in `.git` |
| `CloneUrl.ParsePrintParse` | src/clone-url.ts:14-33 | parse-print-parse equals parse on every accepted text |
| `CloneUrl.LazyRepo` | src/clone-url.ts:18-25 | the lazy group stops at the first length the rest of the pattern accepts |
| `CloneUrl.NameRun` | src/clone-url.ts:18-25 | the greedy owner group is the longest run of name characters |
| `HistoryRefs.NormalizeHistoryRefs` | src/history-ref.ts:30-69 | the loop with `seen` and its early break computes the first four distinct acceptable references |
| `HistoryRefs.NormalizedKeepsEarliest` | src/history-ref.ts:30-69 | at most four, in order, each a copy with the trimmed id, mode, summary version and ranges of the first reference to attach its id; one is left out only when four earlier ones are kept |
| `HistoryRefs.NormalizedIsClean` | src/history-ref.ts:41-61 | kept references are trimmed, non-empty, not the active session |
| `HistoryRefs.NormalizedIdempotent` | src/history-ref.ts:30-69 | normalising twice is normalising once |
| `HistoryRefs.MergeAssociates` | src/history-ref.ts:71-81 | attaching in two steps is attaching everything at once |
| `HistoryRefs.RemoveKeepsNormalized` | src/history-ref.ts:86-91 | detaching from a normalised list keeps it normalised and every other reference in place |
| `HistoryRefs.RemovedIff` | src/history-ref.ts:86-91 | detaching takes away exactly the references with that very id; a null element makes it throw |
| `HistoryRefs.NewestIsKeptIff` | src/history-ref.ts:25-29 | the most recent attachment is kept, as the comment says, if and only if there are at most four |
| `HistoryRefs.FirstIsKeptIff` | src/history-ref.ts:63-65 | the first occurrence of an id is kept if and only if fewer than four first occurrences precede it |
| `HistoryRefs.NewestAreDropped` | src/history-ref.ts:63-65 | from the fifth on the newest are dropped |
| `LogView.LogViewer.Poll` | src/LogViewer.tsx:146-179 | the backward scan finds the last marker line; a failed poll keeps the view |
| `LogView.LogViewer.ClearView` | src/LogViewer.tsx:231-237 | the marker is the last shown line, none for an empty view |
| `LogView.ClearedStaysCleared` | src/LogViewer.tsx:153-172 | over every run of in-order polls in which no marker is misread and none forgotten the view is exactly the window past the clear point, also after the marker rotated out |
| `LogView.NextKeepsIff` | src/LogViewer.tsx:146-179 | a step keeps that promise if and only if it is neither a poll whose new lines repeat the marker's text nor a clear of an empty view over a window that still holds cleared lines |
| `LogView.PollShowsIff` | src/LogViewer.tsx:152-167 | a poll shows exactly the lines past the clear point if and only if none of them repeats the marker's text |
| `LogView.DistinctStaysCleared` | src/LogViewer.tsx:153-172 | on logs without repeated lines only the clears matter |
| `LogView.ClearKeepsIff` | src/LogViewer.tsx:231-237 | a clear keeps that promise if and only if the view is not empty or the window is |
| `LogView.ClearThenPollIff` | src/LogViewer.tsx:146-179 | after clear and poll exactly the new lines show if and only if the view was not empty or the ring moved past everything, and the new marker is not repeated |
| `TextLines.SplitLines` | cmd/logs.go:58-71 | the index loop computes the lines |
| `TextLines.ReadTail` | cmd/logs.go:46-56 | the last `n` lines, all for `n` not positive, one message for an unreadable file |
| `TextLines.LinesJoin` | cmd/logs.go:58-71 | lines hold no newline and join to the text minus one trailing newline |
| `TextLines.SplitIsLossless` | cmd/logs.go:58-71 | complete lines with their newlines plus the rest are the text |
| `TextLines.JoinInjective` | cmd/logs.go:58-71 | newline-free lines are determined by their join |
| `Versions.ParseVersionParts` | cmd/stress_release_surface.go:562-582 | the split, the digit loop and Go's 64-bit accumulation |
| `Versions.VersionLessThan` | cmd/stress_release_surface.go:550-560 | the component loop is the lexicographic order |
| `Versions.PartsIff` | cmd/stress_release_surface.go:562-582 | what any text is read as: between the blanks and behind a leading "v", the numbers its first three dot-separated fields start with, as signed 64-bit values, and zero for a missing field |
| `Versions.EveryTextHasFields` | cmd/stress_release_surface.go:562-582 | every text splits into such fields |
| `Versions.StrictWeakOrder` | cmd/stress_release_surface.go:546-560 | a strict weak order on all texts |
| `Versions.ComponentRoundTripIff` | cmd/stress_release_surface.go:568-578 | a printed number survives if and only if it fits 64 bits |
| `Versions.VersionRoundTripIff` | cmd/stress_release_surface.go:562-582 | printing and parsing a triple is the identity if and only if all three fit |
| `Versions.OrderIsPrecedence` | cmd/stress_release_surface.go:546-560 | on plain triples it is the precedence of section 11 of Semantic Versioning 2.0.0 |
| `Versions.PreReleaseIsIgnored` | cmd/stress_release_surface.go:570-576 | whatever follows the third number is not read |
| `Versions.SuffixedOrder` | cmd/stress_release_surface.go:546-560 | on in-range triples with or without suffixes the order is the precedence of the triples |
| `Versions.AgreesWithSection11Iff` | cmd/stress_release_surface.go:546-549 | two versions with any pre-releases and build metadata are ordered as section 11 of Semantic Versioning 2.0.0 orders them if and only if their numbers differ or their pre-releases are equal |
| `KeySort.LessIff` | cmd/stress_release_surface.go:537-541 | the order is that of a dictionary: at the first difference one text ends or has the smaller character |
| `KeySort.InsertionSort` | cmd/stress_release_surface.go:537-541 | ascending and a permutation, in place |
| `KeySort.SortedKeys` | cmd/stress_release_surface.go:531-544 | exactly the map's keys, strictly ascending |
| `KeySort.SortedKeysUnique` | cmd/stress_release_surface.go:531-544 | whatever order the map is iterated in |
| `ActivityGroups.GroupByPhase` | src/ActivityStream.tsx:108-142 | sections concatenate back to the input, adjacent ones differ, flags say whether any event failed or ended |
| `ActivityGroups.SectionMeaning` | src/ActivityStream.tsx:50-98 | in the grouping of any list every event stands under the title its caption words, in any case, or its type call for, evidence before repair before tools before planning; a section is failed or done exactly when one of its types says so |
| `ActivityGroups.GroupingIsUnique` | src/ActivityStream.tsx:108-142 | there is only one such grouping |

## Left out

- `src/resources.ts`: re-entrant fetchers and listeners (each synchronous stretch is one step), exceptions thrown by listeners (swallowed there), the moment at which a returned promise resolves among other microtasks, a fetcher that throws instead of rejecting, the real length of the grace period (timers fire at any time after arming), and property names inherited from `Object.prototype` in the TTL table.
- ResourceViews.ViewsAreCurrent: says nothing of the time stamp a listener was shown, which an invalidation changes silently by design.
- SessionProtocol: the backend is not part of this model; it is a log of committed mutations whose created ids are new, whose created sessions are of the requested mode, and which answers a list with its content of that mode in any order. `api.state()`, the transcript, the socket and the error banner of the store's callers are not modelled; neither is a rename's trimming or the persistence of the mode.
- SessionDisplay.CreatedStaysDisplayed: is about the space whose list was applied last; for the other space and before any list see `SessionRemovals.NextTakesIff`.
- SessionDisplay.NextHauntsIff: takes replies of creates the user asked for; startup's own create is shown only as a list of one or through a refresh, for which the lemma proves that nothing comes back.
- `src/agent-init.ts`: a failing startup (only its error text) and the fire-and-forget loads after it.
- `src/store.ts` beyond the cited callers: direct writes of the run phase, the idle and session events, run finalisation, the activity list, perf counters and the stream flush scheduler (flushes happen at arbitrary points instead).
- `resetPendingStreaming` (src/store.ts:987-992) and the store's writes of `streaming: null`, when a session, mode or run changes: the display theorems are about the captions between two such resets.
- StreamPipeline.EarlyDeliveryPreservesPhase: is about runs in which no content overtakes a queued resume, the exact exception of `NextSettlesIff`, and drops no batch; with dropped batches the phase is that of the surviving events (`EarlyDeliverySettles`).
- StreamPipeline: wire kinds beyond phase, fold and flush have no effect, and property names inherited from `Object.prototype` in the wire table are not modelled.
- LogView.ClearedStaysCleared: polls whose responses arrive out of order are skipped; the ring window only moves forward.
- Text: trimming and lower-casing are ASCII; strings are sequences of characters without Unicode rules, and Go strings of bytes are sequences of characters.
- `src/LogViewer.tsx`, `src/ActivityStream.tsx`: everything but `poll`, `clearView`, `phaseFor` and `groupByPhase`.
- `cmd/logs.go`, `cmd/stress_release_surface.go`: file access, printing and the substring checks of release files.
- `src/history-surface.ts`, `src/model-selection.ts`, `src/settings-sections.ts`, `src/engine-backend.ts` and the remaining helpers of the modelled files: small case splits that would only add easy members.
- The Go packages under `internal/`, `src/api.ts`, `src/config.ts` and all rendering are not part of this model.
