# Verified model of the Mosona server manager

This project models the parts of the server manager where state is shared, retried,
revoked or cut into pieces, and proves in Dafny what they keep. `dafny verify dfyconfig.toml`
checks all of it.

* **Status delivery.** Producers push status points into a ring buffer that drops its oldest
  point; one worker batches, retries and writes them until it is cancelled or shut down.
* **OAuth providers.** An in-memory registry with revisions and tombstones, the pending
  authorization states (the `state` parameter of section 4.1.1 of RFC 6749), and the database
  transactions on providers and identities.
* **WebSocket client.** Connect, readers, senders, single-flight reconnects and Close.
* **Server lifecycle.** Striped locks, the pool of outbound workers, reconcile retries, and the
  close barrier of an agent's main connection.
* **Snapshot sources.** Single-flight loading, the poll loop that starts its own successor,
  newest-wins broadcast, and the manager that drops idle sources.
* **Login watcher.** Incremental scanning of an append-only record file, the detection of its
  record layout, and its bounded deduplication window.
* **Renewals.** Anchored month arithmetic over the proleptic Gregorian calendar.
* **Secure channel.** Sequence-numbered frames under an AEAD (section 2.8 of RFC 8439), and the
  length-prefixed field encoding behind signatures and transcripts.
* **Alerts and limiters.** What a round of alert checks notifies and stores, how observations
  are queried, and three rate limiters.

Concurrent code is a state machine: `Step` lists the critical sections, atomic operations and
channel operations, `Enabled` and `Apply` say when a step can be taken and what it does, and
theorems quantify over every sequence of steps from `Init`. Critical sections that change
fields are also methods of a class, proved to compute the functions that `Apply` uses.
Algorithms with loops are methods with loops. Clocks, random numbers, network results and
database errors are parameters or nondeterministic steps.

Four behaviours of the code differ from what its surroundings suggest.

* `pkg/ws/ws.go` can leave an open client with no connection, no reconnect in progress and no
  terminal error: a terminal close frame read from a replacement connection (lines 416-420)
  before the reconnect that made it runs its last section (lines 242-245) has its error
  overwritten. `StrandingHappens` reaches that state, `StrandingLasts` shows that only Close
  ends it, `NeverStrandedExactly` says which runs avoid it, and `NeverStrandedUnlessRefused`
  that it takes a terminal close frame.
* Status notices of an alert rule do not alternate if a round without notification channels
  comes between (`AlternationNeedsChannels`); `AlternatesExactlyWhenInStep` says exactly when
  they do.
* The cleanup of `internal/notification/send.go` can change an answer if stamps run back by
  more than a window: for every limit `CleanupShowsWhenTimeStepsBack` gives a run, sweeping on
  every 256th call, in which it does. `CleanupIsInvisibleExactly` says on which stamps no
  limiter can show it; at one limit that condition is enough to hide it
  (`HiddenUnlessTelling`), and `VisibleIfTellingAt` says how much more is enough to show it.
* `agent/logins/utmp.go` joins the fields of a login key with `|` (lines 117-119) without
  escaping, so different logins can share a key (`SeparatorsCollide`), and the second of them
  is not reported while the window holds the first; `KeyIsItsOwnExactly` says that this takes
  a `|` in one of the texts.

## Model

| member | source | states |
|---|---|---|
| StatusQueue.PushesKeepNewest | internal/influx/status_writer.go:173-184 | after any run of pushes exactly the newest `queueSize` points are left, in order |
| StatusQueue.Ring.constructor | internal/influx/status_writer.go:77-106 | a new ring is empty, accepting, with nothing in flight |
| StatusQueue.Ring.PushLocked | internal/influx/status_writer.go:173-184 | the circular array refines a bounded sequence: a push appends, and on overflow drops exactly the oldest point and says so |
| StatusQueue.Ring.EnqueueLocked | internal/influx/status_writer.go:153-171 | a point is accepted exactly while accepting, and a refused one changes nothing |
| StatusQueue.Ring.PopHead | internal/influx/status_writer.go:189-194 | clearing the head slot removes exactly the oldest point |
| StatusQueue.Ring.Take | internal/influx/status_writer.go:186-199 | hands over the oldest `max` points in order, leaves the rest, and counts them in flight |
| StatusQueue.Ring.CompleteBatch | internal/influx/status_writer.go:337-341 | in-flight count falls by the batch |
| StatusQueue.Ring.DropRemaining | internal/influx/status_writer.go:343-355 | returns in-flight plus queued, and leaves neither, with every slot cleared |
| StatusQueue.Ring.StopAccepting | internal/influx/status_writer.go:303-308 | nothing is accepted afterwards |
| StatusDelivery.InvKept | internal/influx/status_writer.go:153-366 | every step of producers, worker, abort and shutdown keeps the accounting, order, retry, wake-up and stop invariants |
| StatusDelivery.Conservation | internal/influx/status_writer.go:153-380 | in every reachable state each accepted point is in exactly one of written, failed, dropped, held, queued; accepted = written + failed + dropped + queued + in flight, corrected by the counting steps still owed |
| StatusDelivery.SettledAtRest | internal/influx/status_writer.go:201-236 | once the worker has exited and no producer owes a count, nothing is queued or in flight and accepted = written + failed + dropped |
| StatusDelivery.NoLostWakeUp | internal/influx/status_writer.go:186-256 | a worker blocked on `wake` with points queued or acceptance stopped has a token waiting or a thread that still owes a notify |
| StatusDelivery.NothingStranded | internal/influx/status_writer.go:303-355 | after the worker exits the queue is empty and nothing is accepted in every later state |
| StatusDelivery.WriterSeesInOrder | internal/influx/status_writer.go:238-301 | over any run the writer is handed an in-order subsequence of accepted points, none twice, in batches of 1..batchSize, each tried 1..attempts times |
| StatusDelivery.DrainIsBounded | internal/influx/status_writer.go:201-301 | after acceptance stops the worker takes at most a computable number of steps, whatever the writer and the other threads do |
| StatusDelivery.DrainNeverStalls | internal/influx/status_writer.go:316-328 | until it exits the worker always has a step to take once pending notifies have run, so shutdown's wait on `done` ends |
| StatusOutcomes.WrittenExactly | internal/influx/status_writer.go:266-290 | over every run the points counted written, or about to be, are exactly those of the batches to which the writer answered with success, in that order |
| StatusOutcomes.FailedExactly | internal/influx/status_writer.go:266-301 | over every run a point is counted failed, or about to be, exactly if all `attempts` calls with its batch were answered with errors, one after the other, and no cancellation was seen between or after them |
| StatusOutcomes.RetryIsDue | internal/influx/status_writer.go:266-290 | a batch whose n-th answer is an error, with n below `attempts` and no cancellation, is held by the worker, which is about to look at its context or make call n + 1, and is counted nowhere |
| StatusOutcomes.CancelledBatchIsDropped | internal/influx/status_writer.go:287-289 | a batch whose error is followed by a cancellation is dropped |
| StatusOutcomes.NothingAfterCancellation | internal/influx/status_writer.go:231-234 | and the writer is not called again |
| StatusOutcomes.RetriesCounted | internal/influx/status_writer.go:268-271 | the counter of retries counts the errors that had attempts left and no cancellation |
| StatusOutcomes.PartialBatchesAreDue | internal/influx/status_writer.go:218-256 | a batch is written short of full only when the flush timer ran out or acceptance stopped |
| StatusOutcomes.FullBatchesDoNotWait | internal/influx/status_writer.go:204-256 | the worker waits only for a batch that is not full, or with nothing at all, while points are accepted; it exits only with an empty queue and acceptance stopped |
| StatusOutcomes.StopperReturnsWhenDone | internal/influx/status_writer.go:310-328 | in every run abort returns only after the cancellation, and shutdown only after the worker has exited as well |
| StatusOutcomes.CancellationEndsWaits | internal/influx/status_writer.go:205-355 | a cancellation ends every wait of the worker, and what it holds and what is queued is dropped |
| ProviderRegistry.Providers.InstallLocked | internal/oauth/init.go:152-161 | installs exactly when the revision is newer than the tombstone and than the current configuration |
| ProviderRegistry.Providers.Install | internal/oauth/init.go:135-150 | a nil configuration changes nothing; an effective install clears an older tombstone and asks to revoke states below its revision |
| ProviderRegistry.Providers.Remove | internal/oauth/init.go:324-334 | raises the tombstone and drops a configuration at or below the revision |
| ProviderRegistry.Providers.Tombstone | internal/oauth/init.go:97-122 | first loop of the merge, in any order: tombstones known providers that were not built, with the revocations they owe |
| ProviderRegistry.Providers.InstallAll | internal/oauth/init.go:97-122 | second loop: installs every built configuration that is newer, with the revocations they owe |
| ProviderRegistry.Providers.Sweep | internal/oauth/init.go:97-122 | third loop: drops configurations not built whose revision is at or below their tombstone |
| ProviderRegistry.Providers.Merge | internal/oauth/init.go:97-122 | the three loops together, independent of iteration order |
| ProviderRegistry.Providers.RefreshRedirectURLs | internal/oauth/init.go:124-133 | every configuration gets the new redirect and nothing else changes |
| ProviderRegistry.InstallLaw | internal/oauth/init.go:135-161 | on the inputs alone: which tables an install leaves, a missing tombstone counting as zero, and when it is effective |
| ProviderRegistry.RemoveLaw | internal/oauth/init.go:324-334 | on the inputs alone: which tables a removal leaves |
| ProviderRegistry.MergeLaw | internal/oauth/init.go:97-122 | on the inputs alone, for each provider: its tombstone, its configuration and the revocation it owes after the three loops |
| ProviderRegistry.PendingStates.Set | internal/utils/store/auth_session.go:37-45 | the state is stored with its provider, revision and time |
| ProviderRegistry.PendingStates.Consume | internal/utils/store/auth_session.go:47-60 | answers yes exactly for an unexpired state of this provider and revision, and takes it out in any case |
| ProviderRegistry.PendingStates.Revoke | internal/utils/store/auth_session.go:68-76 | removes exactly the provider's states at or below the revision |
| ProviderRegistry.PendingStates.CleanUp | internal/utils/store/auth_session.go:78-93 | removes exactly the expired states |
| AuthorizationProtocol.MergeAt | internal/oauth/init.go:97-122 | what a merge leaves of one provider: its tombstone and its configuration, by case |
| AuthorizationProtocol.MergeKeeps | internal/oauth/init.go:97-122 | a merge keeps every floor, and every revocation it owes is already a floor |
| AuthorizationProtocol.InvKept | internal/oauth/init.go:97-161 | every step of install, remove, merge, begin, revoke, consume and cleanup keeps the invariant |
| AuthorizationProtocol.RevokedForGood | internal/oauth/init.go:324-345 | once both phases through revision r are done, no later state of any run serves p at or below r, holds a pending state at or below r, or lets one be consumed |
| AuthorizationProtocol.RemovalSettles | internal/oauth/init.go:324-334 | a removal, anything that happens meanwhile, and then its revocation reach that situation |
| AuthorizationProtocol.InstallSettles | internal/oauth/init.go:135-150 | so do an effective install of revision r + 1 and its revocation |
| AuthorizationProtocol.MergeSettles | internal/oauth/init.go:97-122 | so does each revocation that a merge owes, in any order |
| AuthorizationProtocol.TombstonesAreDiscarded | internal/oauth/init.go:135-150 | there is a run in which the tombstone is gone although its revision stays revoked |
| AuthorizationProtocol.AcceptedWithinTenMinutes | internal/utils/store/auth_session.go:37-93 | over any run of all calls, a state that is not stored anew is consumable if and only if it is asked for with its own provider and revision, at most ten minutes after it was stored, and no call consumed it, revoked it or cleaned it up meanwhile |
| AuthorizationProtocol.CallsDoTheirPart | internal/oauth/init.go:97-150 | an idle caller of install, remove or merge changes the registry at once and owes exactly the revocations that follow |
| AuthorizationProtocol.RevokeDoesItsPart | internal/utils/store/auth_session.go:68-76 | a revocation removes exactly the states of that provider at or below the revision |
| IdentityStore.Database.CreateProvider | internal/db/oauth.go:81-94 | a fresh id with first version and revision |
| IdentityStore.Database.UpdateProvider | internal/db/oauth.go:106-177 | a missing row, a namespace change while an identity is active, and exhausted counters are errors that change nothing; success stores the given namespace and enabled flag, bumps the revision, and on a namespace change bumps the version and forgets exactly the quarantined identities of the provider; nothing else changes |
| IdentityStore.Database.DeleteProvider | internal/db/oauth.go:187-210 | removes the provider and its identities and returns the last revision, or reports no rows |
| IdentityStore.Database.AddIdentity | internal/db/oauth.go:294-335 | links only at the expected version and revision of an enabled provider, with every error case |
| IdentityStore.Database.IdentityBySubject | internal/db/oauth.go:34-67 | finds an active identity of the subject, only past the version and revision test |
| IdentityStore.BoundInCurrentNamespace | internal/db/oauth.go:106-177 | in every state of every run each non-quarantined identity was bound under its provider's current namespace version and content |
| IdentityStore.AcceptedOnlyIfUnchanged | internal/db/oauth.go:34-67 | an authorization begun at some revision is accepted later if and only if that was the current revision and version, the provider is enabled, and no update or delete of it took effect in between |
| IdentityStore.RowKept | internal/db/oauth.go:106-210 | without an effective update or delete the provider's row is unchanged; with one its old revision is past for good |
| IdentityStore.DeletedNeverAccepted | internal/db/oauth.go:187-210 | a deleted provider is never accepted again at any version or revision |
| IdentityStore.LoginOnlyIfUnchanged | internal/db/oauth.go:34-335 | over any run, linking or logging in for an authorization begun earlier succeeds only if no update or delete took effect in between, and login finds the only active identity of the subject, bound under that namespace |
| IdentityStore.DisabledRefuses | internal/db/oauth.go:34-335 | after an effective update that disables a provider, in every later state until an update that enables it, nothing is accepted for it, no identity is linked to it and none logs in |
| IdentityStore.EnabledAccepts | internal/db/oauth.go:106-177 | after an effective update that enables it, exactly the next revision with the version that follows from the namespace is accepted |
| IdentityStore.LinkedLogsIn | internal/db/oauth.go:34-335 | a linked identity logs in, as itself, in every later state until an update, a delete or an unlink |
| ReconnectingClient.Client.BeginConnect | pkg/ws/ws.go:91-106 | Connect starts only on an open client that was never connected |
| ReconnectingClient.Client.EndConnect | pkg/ws/ws.go:109-118 | a failed first dial lets Connect be called again unless the client was closed |
| ReconnectingClient.Client.InstallDialled | pkg/ws/ws.go:154-170 | the connection becomes current unless the client was closed, its context replaced or done; the displaced one is handed back |
| ReconnectingClient.Client.BeginReconnect | pkg/ws/ws.go:203-231 | who returns at once, who waits for the running call, and who leads a new one |
| ReconnectingClient.Client.EndReconnect | pkg/ws/ws.go:237-248 | the result is recorded for waiters and, if the call is still current, as the terminal error |
| ReconnectingClient.Client.BeginClose | pkg/ws/ws.go:334-345 | the first Close takes the connection and context to end; later ones do nothing |
| ReconnectingClient.Client.Refuse | pkg/ws/ws.go:416-421 | a terminal close frame of the current connection removes it and records the error |
| ReconnectingClient.NoConnectionLeaks | pkg/ws/ws.go:128-171 | in every reachable state every connection ever dialled is current, closed, or held by a thread that must install or close it |
| ReconnectingClient.OneReconnectAtATime | pkg/ws/ws.go:203-249 | at most one thread leads a reconnect, and it leads the call in the field |
| ReconnectingClient.WaitersSeeTheResult | pkg/ws/ws.go:236-297 | the leader of a call and all its waiters return the same result |
| ReconnectingClient.ReplacedNeverReturns | pkg/ws/ws.go:154-170 | a connection that stopped being current never is again, in any later state |
| ReconnectingClient.NothingCurrentAfterClose | pkg/ws/ws.go:334-353 | after Close no later state has a current connection |
| ReconnectingClient.StrandingHappens | pkg/ws/ws.go:403-429 | an open client without connection, reconnect or terminal error is reachable |
| ReconnectingClient.StrandingLasts | pkg/ws/ws.go:473-498 | such a client stays that way until Close |
| ReconnectingClient.StrandsExactly | pkg/ws/ws.go:236-249 | a step leads there exactly when a reconnect ends in success after its connection was taken away, or the first Connect returns just after such a reconnect |
| ReconnectingClient.NeverStrandedExactly | pkg/ws/ws.go:203-249 | a run avoids every such state exactly when it takes no such step |
| ReconnectingClient.NeverStrandedUnlessRefused | pkg/ws/ws.go:403-429 | a client that is never sent a terminal close frame is never stranded, in any run |
| ReconnectingClient.NoContextLeaks | pkg/ws/ws.go:91-126 | in every reachable state every context ever made is the client's, cancelled, or held by a thread that is about to cancel it |
| ReconnectingClient.ReconnectSucceedsAfterFailures | pkg/ws/ws.go:236-288 | after any number of failed dials one that succeeds makes its connection current, answers the call without an error and clears the terminal error |
| ReconnectingClient.WaitersWaitAndReturn | pkg/ws/ws.go:213-217 | a caller joins a running reconnect, and returns as soon as its result is there or its context is done |
| ReconnectingClient.RefusedDials | pkg/ws/ws.go:154-163 | a connection dialled for a closed client or a cancelled context is not installed but closed, with the error that says which |
| ServerLifecycle.Tables.TakeRetry | internal/connect/conn/start.go:89-96 | the server's retry is taken out and handed back to be cancelled |
| ServerLifecycle.Tables.TakeOutbound | internal/connect/conn/stop.go:22-28 | the server's entry is taken out and handed back to be awaited |
| ServerLifecycle.Tables.FinishOutbound | internal/connect/conn/stop.go:37-44 | a worker removes only its own entry |
| ServerLifecycle.Tables.FinishRetry | internal/connect/conn/start.go:129-134 | a retry removes only itself |
| ServerLifecycle.InvKept | internal/connect/conn/start.go:25-143 | every step of reconcile, stop, retry and worker keeps the invariant, for any assignment of servers to locks |
| ServerLifecycle.AtMostOneWorker | internal/connect/conn/start.go:193-237 | in every reachable state a server has at most one live outbound worker, also when servers share a lock |
| ServerLifecycle.QuietAfterStop | internal/connect/conn/stop.go:9-44 | from StopServer's return until the next ReconcileServer no worker of the server lives and no retry goroutine reconciles it |
| ServerLifecycle.StopIsRecorded | internal/connect/conn/stop.go:9-15 | StopServer's return, and nothing else, begins that period for its server; a ReconcileServer of it, and nothing else, ends it |
| ServerLifecycle.StopsTheWorker | internal/connect/conn/stop.go:22-35 | a stop takes the worker out of the pool, cancels it, and waits exactly until it is done |
| ServerLifecycle.WaitsAreForCancelledWorkers | internal/connect/conn/stop.go:29-34 | in every reachable state a worker that a stop waits for has been cancelled |
| ServerLifecycle.ReadConfigurationStarts | internal/connect/conn/start.go:145-237 | a reconcile or retry whose configuration could be read registers a new live worker, not cancelled |
| ServerLifecycle.FailedReconcileIsRetried | internal/connect/conn/start.go:25-35 | a ReconcileServer that failed leaves a new retry in the table, not cancelled, with its goroutine asleep, and releases its lock |
| ServerLifecycle.RetryFires | internal/connect/conn/start.go:112-128 | a sleeping retry reconciles when its timer fires and the lock is free, if it is the table's own and not cancelled; otherwise it ends and changes nothing |
| ServerLifecycle.RetryGoesOn | internal/connect/conn/start.go:128-141 | a retry that failed sleeps again and stays in the table; one that succeeded leaves the table and ends |
| ServerLifecycle.RetriesAreCancelled | internal/connect/conn/start.go:89-96 | the first step of a ReconcileServer or StopServer cancels the server's retry and takes it out of the table |
| CloseBarrier.MainConnections.Set | internal/app/agent/connection/main.go:43-51 | the new connection is current and the displaced one is handed back to be closed |
| CloseBarrier.MainConnections.Remove | internal/app/agent/connection/main.go:60-66 | removes the entry only if it is this connection |
| CloseBarrier.MainConnections.Close | internal/app/agent/connection/main.go:68-78 | removes the current connection and hands it back to be closed |
| CloseBarrier.CloseIsABarrier | internal/app/agent/connection/main.go:80-101 | once any Close of a connection has returned, no callback of it runs in this or any later state |
| CloseBarrier.DisplacedAreClosed | internal/app/agent/connection/main.go:43-87 | a displaced connection is closed or its displacer is about to close it, and a closed one has run its closing function or its one winner is about to |
| CloseBarrier.ClosesOnce | internal/app/agent/connection/main.go:80-87 | the closing function runs at most once, by the thread that won the flag |
| CloseBarrier.CallbackRunsWhileOpen | internal/app/agent/connection/main.go:93-101 | on an open connection the callback runs and the call returns; on a closed one the call returns without it |
| CloseBarrier.CloseGoesThrough | internal/app/agent/connection/main.go:80-87 | a Close with no reader in its way runs to its end, and runs the closing function if the connection was open |
| CloseBarrier.CallersGoOnToClose | internal/app/agent/connection/main.go:43-78 | replacing or removing a current connection obliges the caller to close exactly the one displaced |
| PollLoop.Source.SubscribeLocked | internal/app/api/server/monitor/snapshot.go:195-205 | a subscriber is added and a loop started exactly when none runs |
| PollLoop.Source.UnsubscribeLocked | internal/app/api/server/monitor/snapshot.go:207-220 | the last subscriber out hands back the stop channel to close and the load to cancel, and clears the channel's field |
| PollLoop.Source.EndLoop | internal/app/api/server/monitor/snapshot.go:224-235 | a loop that ends with subscribers present starts its successor |
| PollLoop.OneLoop | internal/app/api/server/monitor/snapshot.go:195-250 | `loopRunning` holds exactly when a loop is alive, never more than one is, `loopStop` is that loop's open channel, and no channel is closed twice |
| PollLoop.SubscribersAreServed | internal/app/api/public/snapshot.go:142-190 | with subscribers a loop is alive, and if it was told to stop its last section starts a successor |
| PollLoop.IdleSourceStops | internal/app/api/public/snapshot.go:154-190 | without subscribers a live loop has been told to stop and ends for good |
| PollLoop.LoopGoesOn | internal/app/api/server/monitor/snapshot.go:236-249 | a selecting loop loads at each tick, broadcasts unless told to stop, and selects again |
| PollLoop.StoppedLoopEnds | internal/app/api/server/monitor/snapshot.go:236-249 | a loop that was told to stop can end at its next select or after the load under way |
| SnapshotLoad.Source.Begin | internal/app/api/server/monitor/snapshot.go:137-157 | answer from the cache, join the running load, or lead a new one |
| SnapshotLoad.Source.Finish | internal/app/api/server/monitor/snapshot.go:167-176 | stores the result and ends the load; failures are cached only by the public source |
| SnapshotLoad.SingleFlight | internal/app/api/server/monitor/snapshot.go:137-178 | at most one loader call is in flight, waiters wait for it or for a finished one, and all callers answered by one load got its result |
| SnapshotLoad.CacheIsLoaded | internal/app/api/public/snapshot.go:103-140 | what is cached is the result of some load, and for the monitor source a successful one |
| SnapshotLoad.CallsUseWhatIsThere | internal/app/api/server/monitor/snapshot.go:137-157 | a young cached result is returned without any load; otherwise a running load is joined, and only without one a new load is led |
| SnapshotLoad.LoadsAnswerEverybody | internal/app/api/server/monitor/snapshot.go:159-177 | a load that returns answers its leader at once, lets every waiter return that result, and is stored by the source's caching rule |
| SnapshotManager.Manager.SourceLocked | internal/app/api/server/monitor/snapshot.go:86-100 | finds the team's source or creates it |
| SnapshotManager.Manager.Subscribe | internal/app/api/server/monitor/snapshot.go:102-112 | the new channel is subscribed to the source of its team |
| SnapshotManager.Manager.Unsubscribe | internal/app/api/server/monitor/snapshot.go:114-126 | the channel leaves and an idle source is dropped only if it is the one in the map |
| SnapshotManager.OneSourcePerTeam | internal/app/api/server/monitor/snapshot.go:102-127 | all subscribers of a team are on one source, the one in the map, in every reachable state |
| SnapshotManager.RetiredForGood | internal/app/api/server/monitor/snapshot.go:102-127 | a dropped source is never found again and never has subscribers again |
| SnapshotManager.StepsDoTheirPart | internal/app/api/server/monitor/snapshot.go:86-127 | a subscription goes to the team's source, made only if there is none; the last one out takes the source out of the map exactly if it is the one there |
| Broadcast.Source.Broadcast | internal/app/api/server/monitor/snapshot.go:252-269 | with no receiver running every slot ends up with the new result |
| Broadcast.ReceivedInOrder | internal/app/api/server/monitor/snapshot.go:252-269 | however receives interleave, what a subscriber receives is an in-order subsequence of the broadcasts since it joined, none twice |
| Broadcast.NewestIsNeverLost | internal/app/api/server/monitor/snapshot.go:252-269 | between broadcasts the newest result is in each subscriber's slot or was the last it received |
| Broadcast.SecondSendSucceeds | internal/app/api/public/snapshot.go:192-209 | the send after draining always finds the slot empty |
| Broadcast.BroadcasterNeverBlocks | internal/app/api/public/snapshot.go:192-209 | a broadcast under way always has a next step, whatever receivers do |
| Broadcast.JoiningAndLeaving | internal/app/api/server/monitor/snapshot.go:195-220 | a new subscriber starts with an empty slot and is in the next broadcast; one that left is not |
| DedupWindow.ScanState.EvictOldest | agent/logins/utmp.go:221-231 | forgets the oldest quarter and keeps `seen` equal to the keys left, compacting within the length bound |
| DedupWindow.ScanState.Record | agent/logins/utmp.go:198-218 | an unseen key is recorded after making room, a seen one changes nothing |
| DedupWindow.ScanState.RecordAll | agent/logins/utmp.go:198-218 | the loop computes the window and which keys were unseen |
| DedupWindow.ScanState.Ingest | agent/logins/utmp.go:198-218 | returns exactly the records with unseen keys, none on the first call, keeping `seen` = keys of `order[head..]`, at most 4096 of them and `order` at most 7168 long |
| DedupWindow.ReportsFarApart | agent/logins/utmp.go:198-231 | between two recordings of one key at least 3072 other, distinct keys were recorded, for every sequence of keys |
| DedupWindow.RunFits | agent/logins/utmp.go:198-231 | that spacing carries over from one ingest call to the next |
| DedupWindow.KeysAreSessions | agent/logins/utmp.go:117-119 | two records whose texts hold no separator have the same key if and only if user, terminal, address and time are the same |
| DedupWindow.KeyIsItsOwnExactly | agent/logins/utmp.go:117-119 | a record shares its key with no other if and only if neither user nor terminal nor address contains the separator |
| LayoutDetection.ScoreOf | agent/logins/utmp.go:64-87 | the inner loop tells whether every entry at the layout's stride is plausible and counts the non-empty ones |
| LayoutDetection.Detect | agent/logins/utmp.go:60-104 | a layout is detected if and only if at least 360 bytes are there, it fits, and any other layout that fits has strictly fewer non-empty entries |
| LayoutDetection.PrefixFits | agent/logins/utmp.go:71-87 | a layout that fits the longer data fits every prefix of it, with no higher score |
| LayoutDetection.RuledOutForGood | agent/logins/utmp.go:60-104 | once the other layout does not fit, no appended data makes detection choose it; the chosen one stays chosen exactly while it fits |
| LayoutDetection.OneEntry | agent/logins/utmp.go:50-87 | an entry is plausible exactly with a type of at most 9, seconds in the years 1 to 9999 and microseconds below a million, and counts unless its type is 0 |
| LayoutDetection.Numbers | agent/logins/utmp.go:50-55 | two-byte and signed four-byte numbers, in either byte order |
| LoginWatcher.ParseRecords | agent/logins/utmp.go:170-179 | the loop parses whole records in order and ignores a torn tail |
| LoginWatcher.ParseSplit | agent/logins/utmp.go:170-179 | cutting the data at a record boundary does not change what is parsed |
| LoginWatcher.KeepRecent | agent/logins/watch_linux.go:155-163 | keeps exactly the records not older than the limit, in order |
| LoginWatcher.LogWatcher.ScanPath | agent/logins/watch_linux.go:74-181 | a scan has exactly the effect of the value-level scan on offset, layout, identity, baseline and window; an unreadable file changes nothing and is retried, a stat of an unexpected type ends the watch |
| LoginWatcher.LogWatcher.ResetOnRotation | agent/logins/watch_linux.go:106-117 | rotation starts over, and time replaces an undecided baseline |
| LoginWatcher.LogWatcher.Consume | agent/logins/watch_linux.go:142-171 | splits complete data into baseline and later records and reports exactly the first five of the new ones, or all if there are fewer |
| LoginWatcher.ChunkIndependence | agent/logins/watch_linux.go:74-173 | however the growth of an append-only file is cut into scans, the records ingested are exactly the parse of its content, once each and in order, the ones complete at the first scan as baseline and all others after it |
| LoginWatcher.EmittedAreLater | agent/logins/watch_linux.go:154-172 | over any scans, what is emitted was ingested after the baseline, at most five a scan |
| LoginWatcher.EmissionsFarApart | agent/logins/watch_linux.go:74-173 | over any scans, rotation and re-reading included, every emission is a recording of its own, baseline sessions are recorded before any emission, and a key recorded before is emitted only after at least 3072 other, distinct keys were recorded |
| LoginWatcher.BaselineComesBackLate | agent/logins/watch_linux.go:147-153 | so a session of the baseline is emitted, if ever, only after at least 3072 other, distinct keys were recorded since |
| LoginWatcher.ScanRecords | agent/logins/watch_linux.go:74-173 | what a scan emits is exactly the first five, or all if there are fewer, of the records whose keys it records after its baseline |
| LoginWatcher.NewsIsEmitted | agent/logins/watch_linux.go:142-171 | over any scans, a record after the baseline whose key is not in the window at its turn is emitted, unless five others of its scan came before it |
| LoginWatcher.RotationStartsOver | agent/logins/watch_linux.go:106-133 | a changed device or inode, a file that shrank or a change time that runs back starts over: the whole file is read again, by a layout detected anew, and nothing of it is baseline; a watcher without a baseline from then on leaves out what is older than its start |
| LoginWatcher.EmittedSinceStart | agent/logins/watch_linux.go:106-163 | over any scans, once a start time limits the records nothing older has been emitted, and nothing at all before the baseline |
| LoginWatcher.RecentExactly | agent/logins/watch_linux.go:155-163 | a record is kept exactly if it is not older than the limit, in order |
| RenewalCalendar.BeforeComparesInstants | internal/task/auto_renew.go:58-85 | comparing civil dates is comparing instants, so `Before` is the source's order |
| RenewalCalendar.Gregorian | internal/task/auto_renew.go:106-108 | the length of every month of every year, and of 400 years |
| RenewalCalendar.LandsOnMonth | internal/task/auto_renew.go:89-104 | the target month is exactly the wanted number of months away, negative ones included |
| RenewalCalendar.Anchoring | internal/task/auto_renew.go:89-108 | month ends stay month ends, every other day becomes the smaller of itself and the last day, and adding none changes nothing |
| RenewalCalendar.Composition | internal/task/auto_renew.go:89-104 | adding a then b months equals adding a + b if and only if the date is a month end, is not clamped on the way, or is clamped in the direct result too |
| RenewalCalendar.ComposesForMostDays | internal/task/auto_renew.go:89-104 | it does for month ends and for days up to 27, across leap years |
| RenewalCalendar.CompositionFails | internal/task/auto_renew.go:89-104 | January 30 through February comes out a day later than directly |
| RenewalCalendar.RenewalClosedForm | internal/task/auto_renew.go:58-85 | for cycles 1, 2, 3 and 4 the result is the original date plus k times 1, 3, 6 and 12 months for the least k of at least 1 that is not before now; there is none for any other cycle |
| RenewalCalendar.RenewalEqualsNaiveLoop | internal/task/auto_renew.go:58-85 | any number of cycles at which adding them one by one first stops is the one taken |
| RenewalCalendar.RenewByLoop | internal/task/auto_renew.go:58-85 | the loop that adds cycles one by one, from the original date, until not in the past ends with the same result, the months of each cycle written out |
| RenewalCalendar.RenewalMovesForward | internal/task/auto_renew.go:58-85 | the new end is not in the past and later than the old one |
| RenewalCalendar.RenewalMonotone | internal/task/auto_renew.go:58-85 | a later now never gives an earlier renewal |
| RenewalCalendar.ServerTable.AutoRenewAt | internal/task/auto_renew.go:22-56 | exactly the rows with auto-renew, a cycle of 1 to 4 and an end before now get the end that the closed form gives, the months of each cycle written out; no other row changes, and the unsupported-cycle rollback is never taken |
| RenewalCalendar.SecondPassSelectsNothing | internal/task/auto_renew.go:22-56 | a second pass at the same instant selects nothing and changes nothing |
| FieldEncoding.Int64Injective | pkg/securews/handshake.go:85-89 | signed values have distinct eight-byte forms |
| FieldEncoding.HashFields | pkg/securews/handshake.go:74-83 | the loop feeds the hash exactly the length-prefixed encoding |
| FieldEncoding.FieldsRoundTrip | pkg/securews/handshake.go:74-83 | the encoding of any list of fields can be decoded back |
| FieldEncoding.BytesInOrder | pkg/securews/handshake.go:77-79 | lengths and numbers are big-endian: byte i of a width-w form is the digit of weight 256 to the w - 1 - i |
| FieldEncoding.FieldsInOrder | pkg/securews/handshake.go:40-63 | what the three pre-images decode to, field by field |
| FieldEncoding.EncodingInjective | pkg/securews/handshake.go:74-83 | different lists of fields have different encodings |
| FieldEncoding.TranscriptInjective | pkg/securews/handshake.go:50-58 | the transcript's pre-image determines every value in it |
| FieldEncoding.HubSignatureInjective | pkg/securews/handshake.go:40-47 | the hub's signed pre-image determines what it covers |
| FieldEncoding.DomainsAreSeparate | pkg/securews/handshake.go:40-63 | hub signatures, transcripts and agent signatures never share a pre-image |
| SecureChannel.NonceInjective | pkg/securews/ws.go:139-151 | equal nonces have equal role and sequence number |
| SecureChannel.DirectionsApart | pkg/securews/ws.go:104-151 | over whole sessions, each end seals under the key the other opens with, and no frame of one direction has the nonce of a frame of the other |
| SecureChannel.SessionCrypto.Encrypt | pkg/securews/ws.go:154-170 | seals under the next sequence number, which wraps at 2^64 |
| SecureChannel.SessionCrypto.Decrypt | pkg/securews/ws.go:173-194 | rejects bad encodings and out-of-order frames without moving on, and spends the number before authenticating |
| SecureChannel.NoncesRepeatOnlyOnWrap | pkg/securews/ws.go:139-170 | two frames of a session share a nonce if and only if they are a multiple of 2^64 apart |
| SecureChannel.FrameLayout | pkg/securews/ws.go:139-170 | the k-th frame carries its number, and the plaintext sealed under the sending key with the role's tag and that number as nonce and the number as associated data |
| SecureChannel.OnlyTheNext | pkg/securews/ws.go:173-194 | a frame that decrypts at number n carries the sender's n-th plaintext |
| SecureChannel.DeliveredIsPrefix | pkg/securews/ws.go:154-194 | with frames dropped, repeated, reordered, reflected or garbled, what is delivered up to the first error is a prefix of what the other end sent |
| SecureChannel.DeliveredInOrder | pkg/securews/ws.go:154-194 | even past errors, what is delivered is an in-order subsequence of what was sent, none twice |
| SecureChannel.HonestNetworkDeliversAll | pkg/securews/ws.go:154-201 | over an honest network everything sent is delivered, in either direction and of any length |
| AlertRules.Deliver | internal/servernotify/notify.go:34-79 | of the channels tried before the context ended, attempted exactly if one is of a known kind, delivered exactly if one of those succeeded; a context that never ends tries all |
| AlertRules.DaysLeft | internal/task/alerts/check.go:181-184 | the least number of whole days that covers the remaining time, at least one |
| AlertRules.FailuresChangeNothing | internal/task/alerts/check.go:74-107 | any run of failed deliveries and unloaded observations leaves a rule of any item exactly as it was |
| AlertRules.StatusCheck | internal/task/alerts/check.go:16-107 | on the inputs alone: Up or Down is told exactly when the observation contradicts the recorded side, and the stored status and stamp in every case |
| AlertRules.MetricCheck | internal/task/alerts/check.go:33-163 | on the inputs alone: the value is told exactly if it is at or over the threshold and the last status was not true, had no stamp or is more than an hour old; and the stored status and stamp in every case |
| AlertRules.ExpiryCheck | internal/task/alerts/check.go:165-202 | on the inputs alone: a reminder exactly if the end is ahead, within the days of the rule, not renewed automatically and not told yet; the days it names; and the stored status and stamp in every case |
| AlertRules.AlertStateEqual | internal/task/alerts/run.go:184-197 | true exactly for equal states |
| AlertRules.EvaluateRules | internal/task/alerts/run.go:57-109 | writing the queue, which leaves out unchanged rules, gives the same rows as storing every check; no row is queued twice or without need, and skipped rules are counted |
| AlertRules.DecidedAt | internal/task/alerts/run.go:57-109 | each row then holds what its own check decided, and rows without a rule are untouched |
| AlertRules.AlternatesExactlyWhenInStep | internal/task/alerts/check.go:16-107 | from any recorded state, delivered status notices alternate, starting with Up if the server was recorded down and with Down otherwise, if and only if before every change told an even number of changes was recorded for want of channels or told and not stored; stated on observations, deliveries and stores alone |
| AlertRules.StatusNoticesAlternate | internal/task/alerts/check.go:82-107 | with a channel in every round and every round stored, delivered notices strictly alternate, for a new rule starting with Down, whatever deliveries and queries fail |
| AlertRules.AlternationNeedsChannels | internal/task/alerts/check.go:97-106 | one round without channels can make the first notice an Up |
| AlertRules.DueUntilDelivered | internal/task/alerts/check.go:82-107 | a due notice stays due through any failed attempts and queries, and the first round able to deliver it does |
| AlertRules.MetricNoticesAreSpaced | internal/task/alerts/check.go:33-80 | two deliveries of a metric rule, each at or over the threshold, are separated by a stored round under it, or without an observation, or by more than an hour |
| AlertRules.MetricIsRepeatedExactly | internal/task/alerts/check.go:33-80 | over a run without a stored round under the threshold, a metric at or over it is announced again if and only if more than an hour has passed since the last stored delivery |
| AlertRules.ExpiryNoticesAreSpaced | internal/task/alerts/check.go:165-202 | an expiry reminder is repeated only after a stored round in which the end was not ahead within the days of the rule, or was renewed automatically |
| AlertQueries.MergeTeams | internal/task/alerts/influx.go:66-71 | every server of every team is there, with the rules some team has for it |
| AlertQueries.SortedKeys | internal/task/alerts/influx.go:379-388 | the keys of a map, in any iteration order, come out ascending and complete |
| AlertQueries.DurationGroups | internal/task/alerts/influx.go:137-158 | every server of the batch with a positive duration is in the group of that duration, once; the others are counted if they have a rule |
| AlertQueries.BuildPlans | internal/task/alerts/influx.go:312-342 | plans of one to eight durations, all but the last of exactly eight, hold every wanted rule of the batch exactly once; unsupported items are refused |
| AlertQueries.ObservationSet.Ask | internal/task/alerts/influx.go:114-129 | a failed query only counts a failure; an answered one marks its servers loaded and stores their values |
| AlertQueries.ObservationSet.LoadItem | internal/task/alerts/influx.go:88-130 | one item of one batch asks each wanted rule at most once, and unless stopped exactly once |
| AlertQueries.ObservationSet.LoadBatch | internal/task/alerts/influx.go:79-131 | the same over all items of a batch |
| AlertQueries.ObservationSet.Load | internal/task/alerts/influx.go:59-135 | the same over all teams and all batches, in ascending order of servers, of 64 each but the last; what is loaded follows from the plans asked |
| AlertQueries.LoadedExactly | internal/task/alerts/influx.go:108-130 | a rule is loaded if and only if a plan that holds it was answered |
| AlertQueries.ObservedBy | internal/task/alerts/influx.go:108-130 | a rule's observation comes from the one plan that holds it, whatever other queries return |
| AlertQueries.EachRuleHasItsQuery | internal/task/alerts/influx.go:59-158 | each positive-duration rule sits in exactly one plan and is loaded if and only if that query succeeds; nothing else is loaded |
| AlertRound.ItsQueryDecides | internal/task/alerts/run.go:57-129 | a rule whose own query failed is skipped and left exactly as it was; otherwise it is checked on what that query reports of its server, whatever other queries return |
| AlertRound.UnqueriedRuleIsLeftAlone | internal/task/alerts/run.go:115-129 | a rule that no query holds is left as it was |
| AlertRound.EveryRuleIsDecided | internal/task/alerts/run.go:29-129 | from what the load promises, every rule of every team is decided by its one query, or left alone because its duration is not positive or the load was stopped before its turn |
| TargetLimiter.Limiter.Sweep | internal/notification/send.go:97-103 | removes exactly the counters at least two windows old |
| TargetLimiter.Limiter.Allow | internal/notification/send.go:91-115 | answer and counters, with a sweep on every 256th call |
| TargetLimiter.HiddenUnlessTelling | internal/notification/send.go:91-115 | at any one limit, for any targets and any schedule of sweeps, cleanup changes no answer unless some call's stamp is two windows old at a later sweep and less than one window old at that call or after it |
| TargetLimiter.VisibleIfTellingAt | internal/notification/send.go:91-115 | at any one limit, it changes an answer for some targets if there is such a stamp with at least the limit less one further calls in between less than a window after it |
| TargetLimiter.FewCallsAreHidden | internal/notification/send.go:104-114 | above limit 1 the first condition alone need not show: a run of no more calls than the limit admits all, swept or not |
| TargetLimiter.ShiftedWindowsShow | internal/notification/send.go:97-114 | nor is the second one needed: a run at limit 2 in which a sweep shifts the windows shows it with fewer calls |
| TargetLimiter.InvisibleExactlyAtOne | internal/notification/send.go:91-115 | at limit 1 or less the first condition is exact by itself |
| TargetLimiter.CleanupIsInvisibleExactly | internal/notification/send.go:91-115 | it is exact over all limits together: cleanup changes no answer at any limit, for any targets, if and only if there is no such stamp |
| TargetLimiter.NearlyTimelyIsEnough | internal/notification/send.go:28-30 | so it never does with non-decreasing time, nor when stamps run back by at most a window, as those of concurrent sends may |
| TargetLimiter.CleanupShowsWhenTimeStepsBack | internal/notification/send.go:91-115 | for every limit and every positive window there is a run, sweeping on every 256th call, in which the clock steps back and a sweep changes an answer |
| TargetLimiter.LessThanTwicePerWindow | internal/notification/send.go:91-115 | in any stretch shorter than one window a target is admitted at most twice its limit less one, after any history |
| TargetLimiter.WindowAnswers | internal/notification/send.go:104-114 | until a window has passed since the request that began it, a target is admitted exactly if fewer than the limit were, or none: refusals, other targets and sweeps use nothing up |
| TargetLimiter.BoundIsMet | internal/notification/send.go:91-115 | for every limit and every window longer than an instant there is a run that reaches that bound |
| PublicLimiters.RequestLimiter.Allow | internal/app/api/public/sse.go:54-76 | answer and counters; a new window forgets all addresses at once |
| PublicLimiters.AtMostTwiceTheLimit | internal/app/api/public/sse.go:54-76 | in any stretch shorter than one window, after any history, at most twice the limit pass for each address and less than twice in all |
| PublicLimiters.WindowAnswers | internal/app/api/public/sse.go:54-76 | until a window has passed since the request that began it, a request passes exactly if fewer than the limits did, of all and of its own address: refusals use nothing up |
| PublicLimiters.MostIsMet | internal/app/api/public/sse.go:54-76 | for every pair of positive limits there are runs that reach these bounds |
| PublicLimiters.StreamLimiter.Acquire | internal/app/api/public/sse.go:102-112 | refuses exactly when the address already has its limit of open streams; the table always counts exactly the open streams |
| PublicLimiters.StreamLimiter.Release | internal/app/api/public/sse.go:113-124 | closes its stream once; releasing again changes nothing, and no address is left with a zero entry |

## Left out

- TargetLimiter.VisibleIfTellingAt: at one limit above 1 this is not exact, and neither is the condition of `HiddenUnlessTelling` (`ShiftedWindowsShow`, `FewCallsAreHidden`); what lies between depends on how sweeps and expiries shift the target's windows along the whole run. Exactness is stated over all limits together and at limit 1.
- 64-bit wrap-around of the status counters, and the reading of statistics one counter at a time.
- Timers, jitter, retry delays and logging: a timer is a step that can be taken at any time.
- The inbound stopper of the server lifecycle, and what the database says about a server: a reconcile may decide anything the code can.
- SSH and agent workers: a worker is alive until it ends by itself.
- Real cryptography and msgpack: a sealed value is a datatype of key, nonce, associated data and plaintext, and frames on the wire are those of either end, or not sealed under the session's keys.
- The legacy first version of the session keys.
- Byte-level parsing of one login record: the watcher is proved for any record parser and any layout detector, the actual detector being modelled on its own in `LayoutDetection`.
- Watcher files that shrink or are replaced between stat and read: chunk independence is stated for append-only files, and rotation is covered by `ScanPath` and `EmissionsFarApart`.
- Daylight saving: dates are read at a fixed offset from UTC.
- Go's zero time as an instant of its own: it only stands for an absent value.
- Whitespace other than ASCII in subjects, and the trimming of client addresses.
- SQL, database errors and row locking: each transaction is one atomic step.
- The text of Flux queries and the parsing of their results.
- Editing an alert rule between rounds, other than its threshold, and overflow of durations beyond 292 years.
- The order in which a delivery spends the global and the per-target limit, and its concurrency slots.
- HTTP handlers, email, shoutrrr, export and import, OIDC discovery, password hashing and self-update.
- Broadcast.Source.Broadcast: stated with no receiver running, because the theorems about interleaved receives are the lemmas beside it.
