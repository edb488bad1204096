# A Dafny model of Open Match

Open Match is a distributed matchmaker: game frontends create tickets and backfills in a Redis
store, match functions query them and propose matches, a synchronizer collects the proposals of
concurrent callers into cycles, an evaluator picks a collision-free subset, and the tickets of
accepted matches are hidden from further queries until they are assigned or released. This
project models the stateful protocols behind that and proves, for every run and every
interleaving, what they guarantee; where a promise does not hold of the code it gives a run that
breaks it and the exact condition under which it holds.

Protocols (synchronizer, backfill RPCs, caches, channels) are state machines whose steps are
single store commands, channel operations and goroutine actions; any interleaving is a run.
Sequential code keeps its form: loops are methods with invariants, objects with mutable fields
are classes, and each is proved against a specification about which the results are stated.

| file | what it models |
|---|---|
| `Matchmaking.dfy` | the matchmaking loop end to end: cycles, callers, queries, pending-release marks |
| `MatchmakingHistory.dfy`, `MatchmakingExample.dfy` | the loop's state told from its steps; whole cycles as concrete runs |
| `QueryComposition.dfy` | the matchmaking loop with its queries answered through the query cache |
| `SyncPipeline.dfy` | the channel pipeline of one synchronizer cycle, with the gRPC evaluator client |
| `SyncMarking.dfy`, `SyncRouting.dfy` | exactly which tickets a cycle marks, and exactly where an answer goes |
| `Channels.dfy` | the buffering stages and the cutoff sender |
| `GreedyPacking.dfy`, `DefaultEvaluator.dfy` | the default evaluator and its approximation bound |
| `BackfillWorld.dfy` | every backfill RPC and the cleanup workers, one store command at a time |
| `BackfillGenerations.dfy`, `BackfillUpdates.dfy`, `BackfillExpiry.dfy`, `BackfillAttachment.dfy` | what holds of that world |
| `BackfillExpiryLimits.dfy`, `BackfillAttachmentLimits.dfy` | concrete runs of that world in which an expectation fails |
| `CacheProtocol.dfy`, `CacheExample.dfy` | the query cache's request protocol, and one request served from start to end |
| `QueryCache.dfy`, `TicketRefresh.dfy` | the two incremental refreshes, and their agreement with the store |
| `PoolFilter.dfy`, `QueryService.dfy` | what a pool selects; selection and paging |
| `TicketAssignment.dfy` | UpdateAssignments |
| `ConfigCacher.dfy` | the config memoiser |
| `TeamShooter.dfy`, `BackfillMmf.dfy` | two match functions of the scale scenarios |
| `Domain.dfy` | shared identifiers and floats without NaN |

## Where the code and its comments or expectations differ

- `addMatchesToPendingRelease` forwards a batch of match ids even when the store call failed; its
  comment says failed matches are not returned. `SyncPipeline.FailedMarkIsStillDelivered` is a run in
  which a match is delivered although its ticket was never marked. Exactly when it is marked is
  `SyncMarking.RoutedIsMarkedIffOwnCallSucceeded`: when the store call for the match's own batch
  succeeded, whatever happened to others.
- A match id reused by another caller in one cycle sends the answer to the wrong caller:
  `SyncPipeline.ReusedIdIsMisrouted`. `SyncRouting.AnsweredIffNotOvertaken` says exactly when the
  answer is right: when the last proposal with that id taken in before the answer is of the caller
  whose proposal was evaluated.
- An acknowledgment checks expiry and stamps the new time in two store commands, so an expired
  backfill can come back. `BackfillExpiry.RevivedIffStraddled` says exactly when,
  `BackfillExpiryLimits.StraddlingAckRevives` is such a run.
- Listing expired backfills includes the boundary instant, the expiry check does not:
  `BackfillExpiryLimits.BoundaryCleanupDeletesUnexpired` is a run in which a backfill acknowledged
  at that instant is deleted. `BackfillExpiry.ListedIsUnexpiredIff` says exactly when a listed
  backfill is not expired at any later moment.
- A ticket attached to an unexpired backfill can be back in the ticket index while an acknowledgment
  of that backfill has stamped the new time and not yet deindexed the ticket:
  `BackfillAttachmentLimits.SlowAckExposes`. `BackfillAttachment.AttachedExposedIff` says exactly
  when, and `BackfillAttachment.AttachedTicketsAreHidden` that only a slow acknowledgment does it.
- `setOpenSlots` truncates to 32 bits, so slots add up only while what is left fits: exactly when is
  said by `BackfillMmf.StatefulMmf` for a given backfill and by `BackfillMmf.NewBackfillsAddUp` for a
  new one.
- A pool's time bound set to the zero time is no bound, an entity without a valid creation time
  passes every time bound, and a range filter with an unlisted exclusion mode only asks that the
  argument exists (`PoolFilter.InMeans`).

## Model

| member | source | states |
|---|---|---|
| `Matchmaking.NoTicketMatchedTwice` | internal/app/synchronizer/synchronizer_service.go:186-304 | in every run, two accepted matches that share a ticket lie more than pendingReleaseTimeout apart unless the ticket was explicitly released in between |
| `Matchmaking.MarkedOnlyIfStale` | internal/app/synchronizer/synchronizer_service.go:448-489 | a match about to be marked pending holds no ticket that was accepted within the timeout and not released since |
| `Matchmaking.HiddenIffRecentlyAccepted` | internal/statestore/ticket.go:151-183 | at every moment the pending range hides an indexed ticket exactly when its last acceptance lies within the timeout and nothing released it since; so a query may be shown exactly the tickets created, not deindexed, and free in that sense |
| `Matchmaking.OneTokenOrOneCycle` | internal/app/synchronizer/synchronizer_service.go:186-205 | start tokens plus running cycles equal one at every moment of every run |
| `Matchmaking.EarlierCyclesAreOver` | internal/app/synchronizer/synchronizer_service.go:242-304 | when a caller has its StartMmfs, every earlier cycle has made its last mark and finished its cleanup, and never accepts a match again |
| `Matchmaking.InvStep` | internal/app/synchronizer/synchronizer_service.go:210-304 | every step of callers, cycles, queries and store keeps the whole invariant |
| `MatchmakingHistory.PendingIsHistory` | internal/statestore/ticket.go:369-420 | a ticket is pending exactly when it was marked and not released, unmarked or cleaned up since, with the time of that mark |
| `MatchmakingHistory.LogIsHistory` | internal/app/synchronizer/synchronizer_service.go:448-489 | the log the guarantees speak of holds every acceptance and every release, in order, and nothing else |
| `MatchmakingHistory.IndexIsHistory` | internal/statestore/ticket.go:117-148 | a ticket is indexed exactly when it was created and not deindexed since |
| `MatchmakingHistory.JoinedWhileOpen` | internal/app/synchronizer/synchronizer_service.go:249-270 | a caller is in a cycle because it registered with it while that registration was open |
| `MatchmakingHistory.QueriedAfterStart` | internal/app/synchronizer/synchronizer_service.go:97-123 | every query was begun by a caller of its cycle that had its StartMmfs |
| `MatchmakingHistory.ProposalsAreHistory` | internal/app/synchronizer/synchronizer_service.go:359-405 | a cycle evaluates exactly what its callers sent before its cutoff, in order |
| `MatchmakingHistory.AcceptedIsEvaluation` | internal/app/synchronizer/synchronizer_service.go:239-247 | what a cycle has accepted, followed by what it has still to mark, is in order what the default evaluator accepts of those proposals; after an error, a beginning of it |
| `MatchmakingExample.CycleCompletes` | internal/app/synchronizer/synchronizer_service.go:210-304 | a whole cycle as a reachable run: created ticket, registration, query, proposal, evaluation, mark, cleanup, token returned, ticket hidden |
| `MatchmakingExample.FailedCycleCompletes` | internal/app/synchronizer/synchronizer_service.go:411-420 | a reachable run of a cycle whose evaluator fails: it ends too and accepts nothing |
| `QueryComposition.JointOfRun` | internal/app/query/cache.go:54-121 | loop and cache interleaved step by step: what each does is a run of its own protocol, every request having a query of its own that keeps pace with the update gathered for it |
| `QueryComposition.ReadersQueryIsAnswered` | internal/app/query/cache.go:87-121 | a request that reads the cache has had its own query answered by the reads of the update it sees, which began after the request was handed over |
| `QueryComposition.NoTicketMatchedTwice` | internal/app/query/query_service.go:56-69 | the end-to-end guarantee holds when match functions query through the shared cache |
| `SyncPipeline.DeliveredToItsProposer` | internal/app/synchronizer/synchronizer_service.go:319-354 | an id delivered to a call was proposed by that call; with distinct ids, by it alone, and only after a pending-release call covering all the match's tickets has returned |
| `SyncPipeline.DeliveredAtMostOnce` | internal/app/synchronizer/evaluator_client.go:109-168 | no id is delivered twice, to one call or to two, whatever the evaluator answers |
| `SyncPipeline.UnknownIdBranchesUnreachable` | internal/app/synchronizer/synchronizer_service.go:425-475 | neither branch for an unknown id ever runs; proposals reach the evaluator in order; routed ids are a beginning of the accepted ids |
| `SyncPipeline.LogIsSentBeforeCutoff` | internal/app/synchronizer/synchronizer_service.go:393-405 | a cycle handles exactly the proposals sent before its cutoff, in order |
| `SyncPipeline.NothingAcceptedIsLost` | internal/app/synchronizer/synchronizer_service.go:319-354 | when fanInFanOut has stopped, every accepted id was routed, in order |
| `SyncMarking.MarkedIffCallSucceeded` | internal/app/synchronizer/synchronizer_service.go:463-470 | a ticket is marked exactly when some store call for it has succeeded, whatever other calls failed |
| `SyncMarking.OneCallEach` | internal/app/synchronizer/synchronizer_service.go:452-475 | no id goes through two store calls |
| `SyncMarking.RoutedIsMarkedIffOwnCallSucceeded` | internal/app/synchronizer/synchronizer_service.go:448-475 | a routed match went through exactly one store call, and if accepted matches share no ticket its tickets are marked exactly when that call succeeded |
| `SyncPipeline.FailedMarkIsStillDelivered` | internal/app/synchronizer/synchronizer_service.go:463-474 | a reachable state where a match was delivered and its ticket not marked, after a failed store call |
| `SyncPipeline.ReusedIdIsMisrouted` | internal/app/synchronizer/synchronizer_service.go:327-346 | a reachable state where reusing a match id sends one caller's answer to another |
| `SyncRouting.RouteIsLatest` | internal/app/synchronizer/synchronizer_service.go:327-337 | while the fan is open an id is routed exactly when a proposal with it was fanned in, and then to the call of the latest one |
| `SyncRouting.AnsweredIffNotOvertaken` | internal/app/synchronizer/synchronizer_service.go:339-352 | in every run, also with reused ids, the answer is for the first proposal with its id and is sent to the call of the last one fanned in; so it reaches the right call exactly when those two calls are the same |
| `ChannelBuffer.LosslessInOrder` | internal/app/synchronizer/synchronizer_service.go:528-597 | in every interleaving the batches plus the pending buffer are the input in order, no batch is empty, the output is closed at most once, nothing is sent after, and by then everything was handed on |
| `ChannelBuffer.ClosedInputDrains` | internal/app/synchronizer/synchronizer_service.go:553-556 | once the input is closed the goroutine can always step, every step brings it nearer its end, and at its end everything was handed on |
| `CutoffSender.OrderedUntilCutoff` | internal/app/synchronizer/synchronizer_service.go:369-405 | with any number of senders and cutoffs the output is an ordered subsequence of the values sent, nothing is refused before the first cutoff, nothing taken is lost, both channels are closed at most once and nothing is sent after |
| `CutoffSender.ClosedIsFinal` | internal/app/synchronizer/synchronizer_service.go:377-388 | once closed, the output never changes |
| `GreedyPacking.KeptIsClashFree` | internal/app/evaluator/defaulteval/evaluator.go:130-172 | greedy selection keeps a clash-free set |
| `GreedyPacking.KeptWithinFactor` | internal/app/evaluator/defaulteval/evaluator.go:130-172 | no clash-free choice is worth more than k times what greedy selection keeps, if every item uses at most k resources |
| `DefaultEvaluator.Collect` | internal/app/evaluator/defaulteval/evaluator.go:64-97 | proposals with malformed criteria are dropped, those without criteria score lowest, order is kept |
| `DefaultEvaluator.EligibleMembers` | internal/app/evaluator/defaulteval/evaluator.go:64-97 | an input is collected exactly when its match was proposed with that score, or without criteria and the score is the lowest |
| `DefaultEvaluator.Decollider.MaybeAdd` | internal/app/evaluator/defaulteval/evaluator.go:130-172 | a match is kept exactly when it collides with nothing kept, and the used tables name exactly what the kept matches occupy |
| `DefaultEvaluator.Decollider.FindClash` | internal/app/evaluator/defaulteval/evaluator.go:131-158 | the two table lookups find a clash exactly when the match collides with a kept one |
| `DefaultEvaluator.Evaluate` | internal/app/evaluator/defaulteval/evaluator.go:99-124 | for any order the sort may leave, the ids sent are those of the proposals that collide with no surviving earlier one |
| `DefaultEvaluator.AcceptedShareNothing` | internal/app/evaluator/defaulteval/evaluator.go:130-172 | no two accepted matches have a ticket in common, or a backfill id other than the empty one |
| `DefaultEvaluator.RejectedSharesWithBetter` | internal/app/evaluator/defaulteval/evaluator.go:130-186 | every proposal not accepted shares a ticket, or a non-empty backfill id, with an accepted one of at least its score |
| `DefaultEvaluator.AcceptedWithinFactor` | internal/app/evaluator/defaulteval/evaluator.go:99-108 | with non-negative scores and at most k tickets-plus-backfill per match, no collision-free set of proposals scores more than k times the accepted total |
| `BackfillWorld.InvOfRun` | internal/app/frontend/frontend_service.go:117-226 | what every interleaving of backfill RPCs, failures and cleanups keeps: lock holders have read what is stored, updates are recorded once per generation, index behind store |
| `BackfillGenerations.GenerationFixesContent` | internal/app/backend/backend_service.go:395-416 | over every run, failures included, id and generation determine a stored backfill's content, generations never fall and deleted ids never return |
| `BackfillGenerations.IndexNeverAhead` | internal/statestore/backfill.go:393-407 | at every step the indexed generation is at most the stored one |
| `BackfillGenerations.SuccessHasIndexed` | internal/app/frontend/frontend_service.go:117-209 | every create or update RPC that succeeds, from the frontend or for a match, has run an indexing command that made index entry and stored generation equal |
| `BackfillGenerations.EqualUntilUnlock` | internal/app/backend/backend_service.go:395-416 | after a successful update the two stay equal as long as its lock is held |
| `BackfillGenerations.AtMostOneApplied` | internal/app/backend/backend_service.go:369-417 | of all updates built on one generation of a backfill, by matches and game servers, at most one is applied |
| `BackfillGenerations.AtMostOneStreamed` | internal/app/backend/backend_service.go:169-197 | a streamed match was applied to its own generation, no other match on that generation is streamed and no other update applied to it |
| `BackfillGenerations.LoserIsReleased` | internal/app/backend/backend_service.go:169-190 | a match dropped for a generation mismatch or a missing backfill was never applied, and its tickets were put up for release |
| `BackfillGenerations.DroppedIffLost` | internal/app/backend/backend_service.go:369-400 | a match is dropped exactly when at its read its backfill was gone or at another generation than the one it was proposed on |
| `BackfillUpdates.RequestIsKept` | internal/app/frontend/frontend_service.go:150-209 | an RPC works throughout with the request it was begun with |
| `BackfillUpdates.UpdateWrites` | internal/app/backend/backend_service.go:402-416 | an update writes the request's search fields and extensions over what is stored at that moment, one generation on, keeping the creation time; a match keeps the persistent field and appends its tickets to those attached, a game server's update sets the persistent field and detaches all |
| `BackfillUpdates.CreateWrites` | internal/app/frontend/frontend_service.go:117-147 | a create stores what it was asked to store, as generation one |
| `BackfillUpdates.PendingIsHistory` | internal/statestore/ticket.go:369-420 | in the backfill world too, a ticket is pending exactly when it was marked and not released since by any of the RPCs |
| `BackfillUpdates.UpdateReleasesDetached` | internal/app/frontend/frontend_service.go:178-198 | after the release command of a game server's update none of the tickets it detached is pending |
| `BackfillUpdates.DeletionReleasesAttached` | internal/statestore/backfill.go:256-273 | where no command failed, the release command of a deletion leaves no attached ticket pending |
| `BackfillUpdates.DeletionEnds` | internal/statestore/backfill.go:237-286 | a deletion that returns success has run its removal whatever failed before; an error after locking means the deindexing failed |
| `BackfillUpdates.AcknowledgmentGoesOn` | internal/app/frontend/frontend_service.go:369-375 | failing to deindex a ticket does not stop an acknowledgment |
| `BackfillWorld.TtlIsFourFifths` | internal/statestore/backfill.go:465-469 | the backfill timeout is the largest multiple of four that is at most four fifths of the pending-release timeout |
| `BackfillExpiry.ExpiredAfterFourFifths` | internal/statestore/backfill.go:225-234 | a backfill is expired after four fifths of the pending-release timeout, up to rounding by less than four nanoseconds |
| `BackfillExpiry.RefusedIffExpired` | internal/statestore/backfill.go:189-223 | every expiry check, of updates and of acknowledgments at both their checks, refuses exactly the backfills that are expired or have no entry |
| `BackfillExpiry.WrittenOnlyIfUnexpired` | internal/statestore/backfill.go:189-223 | an update is written only to a backfill that was not expired when it was checked |
| `BackfillExpiry.RevivedIffStraddled` | internal/statestore/backfill.go:328-357 | an expired backfill becomes unexpired exactly by an acknowledgment whose check came before and whose stamp comes after the deadline |
| `BackfillExpiry.ExpiryIsAbsorbing` | internal/statestore/backfill.go:225-234 | without such an acknowledgment an expired backfill never becomes unexpired |
| `BackfillExpiry.ListedIsUnexpiredIff` | internal/statestore/backfill.go:303-379 | at any moment after a listing, a listed backfill with an entry is unexpired exactly when an acknowledgment stamped since is within its deadline, or there was none, its entry lay on the boundary and the clock has not moved |
| `BackfillExpiry.CleanupDeletesOnlyExpired` | internal/statestore/backfill.go:303-326 | if the clock has moved, at any time after the listing, before any acknowledgment was stamped, and none straddles the deadline later, a listed backfill is expired or without entry from then on |
| `BackfillExpiry.EveryExpiredIsListed` | internal/statestore/backfill.go:360-379 | a listing misses no expired backfill |
| `BackfillExpiry.ListedIsTaken` | internal/statestore/backfill.go:288-326 | a listed id that is no longer waiting was taken up, and a new listing waits until all are |
| `BackfillExpiryLimits.StraddlingAckRevives` | internal/statestore/backfill.go:328-345 | a reachable state from which an acknowledgment revives an expired backfill |
| `BackfillExpiryLimits.BoundaryCleanupDeletesUnexpired` | internal/statestore/backfill.go:360-379 | a reachable state from which cleanup deletes a backfill acknowledged at that very time |
| `BackfillAttachment.StoredIffAcknowledged` | internal/statestore/backfill.go:47-76 | in failure-free runs, an id between operations is stored exactly when it has an acknowledgment entry |
| `BackfillAttachment.SlackIsAFifth` | internal/statestore/backfill.go:465-469 | the time p - ttl left for attaching a marked ticket is a fifth of p, rounded up by less than four nanoseconds |
| `BackfillAttachment.AttachedExposedIff` | internal/statestore/ticket.go:158-180 | if tickets are attached within p - ttl of being marked, nothing releases them and RPCs complete, a ticket attached to an unexpired backfill keeps its mark, and is in the ticket index exactly when it is still listed and its mark is older than p |
| `BackfillAttachment.AttachedTicketsAreHidden` | internal/app/frontend/frontend_service.go:340-382 | in such runs it is in the ticket index only while an acknowledgment of its backfill is between its stamp and the deindexing with the clock moved on since its check, or a deletion of the backfill has just released it |
| `BackfillAttachmentLimits.SlowAckExposes` | internal/app/frontend/frontend_service.go:345-375 | a state of such a run in which a slow acknowledgment exposes an attached ticket |
| `CacheProtocol.TokenAndWaitGroup` | internal/app/query/cache.go:87-121 | in every interleaving, cancellations included, start tokens plus runRequests equal one and the WaitGroup counts the unfinished readers plus the grant in progress |
| `CacheProtocol.NoReadDuringUpdate` | internal/app/query/cache.go:54-121 | no request reads the cache while an update writes it |
| `CacheProtocol.ReadsLaterUpdate` | internal/app/query/cache.go:54-85 | a reader sees the newest update, which began after its request was handed over |
| `CacheExample.RequestReturns` | internal/app/query/cache.go:54-121 | one request from its arrival to its return as a reachable run, with the start token back at the end |
| `QueryCache.TicketCache.Update` | internal/app/query/cache.go:138-187 | the refreshed cache is exactly: still indexed tickets as cached, other indexed ids as stored at the fetch; and what is left behind when either store call fails |
| `QueryCache.BackfillCache.Update` | internal/app/query/cache.go:204-253 | the same, keeping only backfills no older than their index entry |
| `QueryCache.FillIn` | internal/app/query/cache.go:163-177 | fetching only what is missing gives what reading every kept or stored id would |
| `TicketRefresh.CachedIsStored` | internal/app/query/cache.go:138-187 | at every moment of every run with concurrent creates, deletes and assignments, a cached ticket still stored equals the stored one up to its assignment |
| `TicketRefresh.StoreIsHistory` | internal/statestore/ticket.go:38-148 | a ticket is stored exactly when it was created and not removed since, and indexed exactly when it was indexed and not deindexed since, whatever assignments do |
| `TicketRefresh.ReadHolds` | internal/statestore/ticket.go:263-285 | the read of an assignment holds exactly the requested tickets that are stored, with their assignments |
| `TicketRefresh.ExecAssigns` | internal/statestore/ticket.go:287-310 | its transaction writes exactly those still stored and leaves every other ticket alone |
| `TicketRefresh.IndexWasRead` | internal/statestore/ticket.go:151-183 | the ids of a refresh are those indexed and not pending when that refresh asked |
| `TicketRefresh.QueryRefinesScan` | internal/app/query/query_service.go:56-69 | for tickets still stored, a query on the refreshed cache selects exactly what scanning the store would; anything else it selects was deleted since it was cached |
| `BackfillRefresh.CachedBetween` | internal/app/query/cache.go:216-244 | after any refreshes over any run, a cached backfill is at least as new as its index entry, never newer than what is stored, and equal to it when the generations agree |
| `BackfillRefresh.CachedBackfillIsStored` | internal/app/query/cache.go:216-244 | a cached backfill whose index generation equals the stored generation is the stored backfill |
| `BackfillRefresh.IndexReadHolds` | internal/statestore/backfill.go:427-463 | the index read holds exactly the indexed ids that were acknowledged and not expired, each with its indexed generation |
| `PoolFilter.InMeans` | internal/filter/filter.go:51-161 | a pool is rejected exactly for an invalid time bound; otherwise the filter accepts exactly the entities that meet every condition of the pool |
| `PoolFilter.InstantOrder` | internal/filter/filter.go:55-65 | valid timestamps are those of the years 1 to 9999, ordered by seconds and then nanoseconds |
| `QueryService.PageSize` | internal/app/query/query_service.go:194-224 | the page size is the one nearest to the configured size among 10 to 10000, and 1000 when none is configured |
| `QueryService.Select` | internal/app/query/query_service.go:64-68 | in whatever order the map is walked, each admitted ticket is selected exactly once |
| `QueryService.SendPages` | internal/app/query/query_service.go:76-91 | pages concatenate to the results, none is empty, all but the last are full; after a failed send they are a beginning of that |
| `QueryService.QueryTickets` | internal/app/query/query_service.go:44-92 | the status for each bad input; on success the pages are exactly the cached tickets that belong to the pool, each once |
| `TicketAssignment.Gather` | internal/statestore/ticket.go:240-261 | a request is accepted exactly when every group has an assignment, some id is named and none twice; every id is recorded with its own group's assignment |
| `TicketAssignment.Exec` | internal/statestore/ticket.go:287-310 | the transaction overwrites existing tickets only and reports which |
| `TicketAssignment.SuccessIsRight` | internal/statestore/ticket.go:263-335 | the two rounds of sifting partition the requested ids into failures and updated tickets, each with its own group's assignment, and recreate nothing |
| `TicketAssignment.TicketStore.UpdateAssignments` | internal/statestore/ticket.go:228-336 | whatever happens to the store between read and transaction: result and store in every error case, and on success that partition |
| `ConfigCacher.UnchangedReadsRebuildTheSame` | internal/config/cacher.go:121-226 | if every recorded value still holds, a fresh build ends as the recorded one did |
| `ConfigCacher.ViewChangeDetector.HasChanges` | internal/config/cacher.go:169-226 | it answers true exactly when some recorded value differs from the current config |
| `ConfigCacher.Cacher.Get` | internal/config/cacher.go:57-74 | Get returns what a fresh build under the current config would, after any history; nothing is rebuilt or closed when no recorded value changed; otherwise the held closer is run and the new build's closer is kept with its object or run after an error; every closer runs at most once and at most one is outstanding |
| `ConfigCacher.Cacher.ForceReset` | internal/config/cacher.go:78-91 | the held closer is run once and the object forgotten |
| `TeamShooter.Profiles` | examples/scale/scenarios/teamshooter/teamshooter.go:91-130 | the profiles in order: regions, then modes, then neighbouring skill boundaries |
| `TeamShooter.ShardsHold` | examples/scale/scenarios/teamshooter/teamshooter.go:94-127 | a pool is listed exactly when it is some region's, some mode's and some skill range's |
| `TeamShooter.ShardAdmitsExactly` | examples/scale/scenarios/teamshooter/teamshooter.go:97-124 | a profile's pool admits exactly the tickets of its region and mode with a skill in its range widened by half the maximum difference on each side |
| `TeamShooter.MatchFunction` | examples/scale/scenarios/teamshooter/teamshooter.go:163-205 | the proposals are exactly the windows of playersPerGame consecutive tickets whose ends are close enough, in order, for any order the sort may leave |
| `TeamShooter.NobodyIsStranded` | examples/scale/scenarios/teamshooter/teamshooter.go:91-205 | completeness: any playersPerGame tickets that share region and mode and are spread below the maximum all pass one profile's filter, and any pool holding them yields a proposal |
| `TeamShooter.EveryProposalIsFair` | examples/scale/scenarios/teamshooter/teamshooter.go:175-201 | every proposal is playersPerGame tickets of the pool, pairwise spread below the maximum |
| `BackfillMmf.StatefulMmf` | examples/scale/scenarios/backfill/backfill.go:87-153 | the matches split into one run per pool with tickets, whose ticket lists concatenate to exactly the pool's tickets; a new match is opened only when the pool's backfills are full, and all but the last with the maximum number of tickets; for every backfill, used plus open slots equal the slots open before, none negative, exactly when what its first match left fits in 32 bits; it terminates |
| `BackfillMmf.FillNext` | examples/scale/scenarios/backfill/backfill.go:99-125 | one backfill takes as many of the next tickets as it has open slots, and its books still balance |
| `BackfillMmf.OpenMatches` | examples/scale/scenarios/backfill/backfill.go:127-149 | the rest goes, in order, into new matches, all but the last of exactly the maximum size, each with a backfill of its own |
| `BackfillMmf.NewBackfillsAddUp` | examples/scale/scenarios/backfill/backfill.go:138-139 | a new backfill's used and open slots add up to ticketsPerMatch, none negative, exactly when its match does not overfill the game and the rest fits in 32 bits |
| `BackfillMmf.Int32` | examples/scale/scenarios/backfill/backfill.go:174-185 | the conversion to int32 lands in range and is exact exactly for numbers in range |
| `BackfillMmf.Int32Wraps` | examples/scale/scenarios/backfill/backfill.go:179 | the conversion keeps the low 32 bits |

## Left out

- gRPC, HTTP, TLS and JSON transport, connection pools and the marshalling of messages: library calls; marshalling is the identity.
- The redsync mutex: a real mutex per backfill id whose holder finishes before the lock expires; failures to unlock are not modelled.
- A store command whose effect happens but whose reply is lost: a failing command has no effect, except that an RPC may also fail at its next command.
- Clock differences between machines: one non-decreasing integer clock. Rounding of floats and of Redis scores, and NaN: reals and integers.
- Timers of the synchronizer: registration closing and the cutoff are steps that may happen at any time.
- Channel capacity and blocking in the pipeline: channels between stages are unbounded queues, which allows more interleavings than the code has. That a stage eventually proceeds is stated only for the buffering stage.
- The race on the registrations slice when the evaluator finishes before registration closes, and the closing of the callers' own channels.
- Batches in the end-to-end model: tickets are marked match by match, where the code marks a batch in one ZADD; `SyncPipeline` has the batches.
- The HTTP evaluator client, which checks neither unknown nor repeated ids; the pipeline results are about the gRPC client.
- Empty match ids in `synchronizeRecv`: match ids are taken to be non-empty, since signal-only responses carry the empty id.
- The evaluators of the scale scenarios, `statelessMMF`, and the quality scores of the team shooter: variants that would only add easy members.
- QueryTicketIds and QueryBackfills: the same selection and paging loops as QueryTickets, on ids and on the backfill cache.
- GetAssignments and WatchAssignments polling, health checks, telemetry, logging, and the key expiry set by an assignment, which appears only as a removal that may happen at any time.
- The sort routines: their result is a parameter constrained to be a sorted permutation, so the results hold for every order an unstable sort may produce.
- Config changes during one constructor call: the config is fixed during a `Get` and arbitrary between calls.
- A ticket is marked or attached only after it was indexed, since its id is given out only then; each ticket is indexed once.
- Tickets and backfills share one key space in Redis; here they are separate maps, since ids are globally fresh.
- BackfillAttachment.AttachedExposedIff: leaves aside the moments between the two commands of a deletion that release the tickets and remove the record, since deleting a backfill is itself an explicit release of its tickets.
- Liveness of the cleanup workers: that a waiting id is eventually taken is not stated.
- BackfillMmf.StatefulMmf: asks for maxTicketsPerNotFullMatch of at least one, without which the original does not terminate; an extension that does not decode, where the original panics, is not modelled.
- TeamShooter.MatchFunction: tickets are taken to have search fields and playersPerGame to be at least one, since the original panics otherwise.
