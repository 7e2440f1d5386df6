# Orcheo verification

Dafny models of the stateful engines of Orcheo, with proofs of the guarantees they give over whole runs and
interleavings. `dafny verify dfyconfig.toml` verifies the project. Code that changes state is a class whose methods are
proved against functions on values (`ReferenceModel` beside `ReferenceRuntime`, and so on); the theorems are about those
functions. Nothing here executes the original code.

| files | what they model |
|---|---|
| RuntimeModel, ReferenceRuntime, DurableRuntime | the two hosted-app invocation services, in memory and on PostgreSQL |
| RuntimeRefinement | the durable service refines the reference |
| RuntimeInterleaving, RuntimeGuarantees, RuntimeLocks, RuntimeDeadlock | concurrent accepts, statement by statement: limits, lease conservation, scopes, deadlock |
| RuntimeIdempotency | the two maps of the reference service over whole runs |
| InputSchema | the JSON schema validator of hosted-app inputs |
| AppRepository, AppRepositoryService | the lifecycle of hosted apps |
| SupervisorLease, SupervisorPass | the listener supervisor: competing runtimes, and one pass |
| GatewayCursor, TelegramCursor | the persisted cursors of the Discord, QQ and Telegram adapters |
| IdentityStore, IdentityStores, IdentityGuarantees | the two identity stores |
| Deployment, BundleKeys, BundleValidation | materialization, prefix deletion and ZIP validation |
| AsyncPools | reference-counted connection pools |
| CursorCodec, DocumentPaging | document pagination, limits and versions |
| TemplateDecoding | copy-on-write template decoding |

## Assumptions

- One SQL statement is an atomic step, a transaction is all or nothing, an advisory lock is held to the end of its
  transaction. Transactions read their instant before they lock, so instants can be out of order; the clock itself never
  goes back. Deletes of a transaction are visible to itself at once and to others at its commit.
- Handles, lease and record ids and refresh hashes are fresh where they are created, and an update of a session keeps its
  refresh hash or leaves it revoked, as `revoke_oauth_session` does with a copy read before a rotation
  (apps/backend/src/orcheo_backend/app/identity/service.py:448-456). Hashes of scope keys and of request bodies are
  injective; the limits and the workspace of a binding are fixed. A timeout is at most the lifetime of a handle.
- `create_app_with_alias` gets default release and revision fields and `update_app` the stored ones, unless a lemma says
  otherwise: both methods store the whole object.
- JSON values are those Python can hold: no key of a dictionary occurs twice, and an int has no fraction.
- The gateway and Telegram servers are ordered logs of events; any call can raise, before or after it took effect.

## Where code and expectation part

- Refusal reasons of the two runtime services differ when several limits are exhausted at once: the reference looks at
  concurrency first, the durable service last (`RuntimeRefinement.AcceptRefines`).
- The docstring at src/orcheo/hosted_apps/runtime.py:65-70 calls the one service the reference of the other. They differ
  once a stranger asked for `status` after the timeout and the run is then replayed or cancelled
  (`RuntimeRefinement.CancelAheadParts`), on `complete` and `cancel` of a forgotten handle, and on `complete` of
  a settled run; the exact conditions are proved, and `RuntimeRefinement.CancelledRunRevived` is the worst case.
- Advisory locks are 64-bit hashes. A collision between classes of names can deadlock two accepts
  until PostgreSQL aborts one of them (`RuntimeDeadlock.CollisionDeadlocks`; exactly when: `RuntimeDeadlock.DeadlockIffTangled`).
- A status write drops the lease of a running adapter, and so two recoveries of one blocked subscription overlap
  (`SupervisorLease.RecoveriesOverlap`). Without any status write, the release of an adapter that returned can clear the
  claim its own runtime's next pass just renewed, and the next adapter runs unclaimed (`SupervisorLease.ReleaseOverlap`).
  The failure record of a failed recovery does not survive the pass that made it (`SupervisorPass.FailuresOnRecord`).
- An invalid-session frame forces IDENTIFY only if the cleared cursor could be stored
  (`GatewayModel.InvalidSessionIdentifies`).
- The dictionary store of authorization requests reopens a code consumed before its decision
  (`IdentityGuarantees.EarlyCodeConsumedTwice`; exactly when: `IdentityGuarantees.CodeConsumedOnce`).
- `update_app` in the router reads and writes back without a lock. A stale write can take a permission revision back and
  make an unreviewed app look reviewed (`AppLifecycle.UnreviewedLooksReviewed`; exactly when:
  `AppLifecycle.StaleUpdateRewinds` and `AppLifecycle.LandsIffTimely`).
- A bundle member named like the manifest breaks the manifest-last order (`DeploymentModel.OrderHoldsIffUnreserved`),
  and the validator accepts one (`BundleValidation.ManifestNameIsAccepted`); the S3 store refuses the prefix a discard
  passes (`BundleKeys.S3RefusesDiscard`); a failed clean-up leaves objects behind (`DeploymentModel.FailureLeavesObjects`);
  a member spelled `./index.html` is accepted and cannot be opened afterwards
  (`BundleValidation.AcceptedButNotExtractable`).
- `validate_input_schema` accepts bounds of the wrong type, which raise later (`InputSchema.UntypedBoundRaises`; exactly
  when: `InputSchema.NeverRaisesIff`).
- `resolved_for_run` and `decode_variables` differ when the stored model equals the selected one and decodes to something
  else (`TemplateModel.CopyEqualsInPlace`, `TemplateModel.TemplateSelectedAsModel`).
- Document versions start over when a document is deleted and created again, so a writer with an old version can overwrite
  the new document (`DocumentPaging.SecondWinnerAfterRemoval`).

## Model

| member | source | states |
|---|---|---|
| `RuntimeGuarantees.QuotaNeverExceeded` | src/orcheo/hosted_apps/postgres_runtime.py:132-171 | after any interleaving of statements of any number of transactions, clock ticks and settlements, the committed unexpired leases of an operation never exceed its limit at real time, although each transaction read its `now` before locking |
| `RuntimeGuarantees.CountSeesCommitted` | src/orcheo/hosted_apps/postgres_runtime.py:411-430 | a transaction under the lock of a bucket counts every committed lease that is live at real time, however stale its own instant is |
| `RuntimeGuarantees.InsertWithinCaps` | src/orcheo/hosted_apps/postgres_runtime.py:431-452 | the slot a count found free pays for the insert, while other transactions are open |
| `RuntimeGuarantees.LeaseConservation` | src/orcheo/hosted_apps/postgres_runtime.py:172-222 | after any interleaving a concurrency lease belongs to exactly one run, and is unreleased and unexpired exactly while that run is unsettled and not timed out |
| `RuntimeGuarantees.RunsInFlightBounded` | src/orcheo/hosted_apps/postgres_runtime.py:390-404 | a binding that limits concurrency never has more runs in flight than its limit |
| `RuntimeGuarantees.OneLiveRunPerScope` | src/orcheo/hosted_apps/postgres_runtime.py:138-167 | however accepts with the same key interleave, one scope never has two unexpired runs |
| `RuntimeGuarantees.LiveRunFound` | src/orcheo/hosted_apps/postgres_runtime.py:142-167 | the idempotency lookup finds the unexpired run of its scope even with a stale instant |
| `RuntimeGuarantees.SettledForever` | src/orcheo/hosted_apps/postgres_runtime.py:275-350 | a settled row is never written again by any statement or settlement |
| `RuntimeGuarantees.RunKeepsInvariant` | src/orcheo/hosted_apps/postgres_runtime.py:73-237 | the invariant behind these results (good rows, well-formed transactions, exclusive locks, scopes, bounds, workspaces) holds after any sequence of steps |
| `RuntimeInterleaving.StatementKeeps` | src/orcheo/hosted_apps/postgres_runtime.py:132-222 | every statement of `accept` keeps every other open transaction well formed, with the locks its position needs |
| `RuntimeInterleaving.CommitKeeps` | src/orcheo/hosted_apps/postgres_runtime.py:199-222 | a commit publishes its deletes, its leases and its row and leaves all other transactions well formed |
| `RuntimeLocks.SpecsAscend` | src/orcheo/hosted_apps/postgres_runtime.py:364-408 | the limits of a request come in strictly increasing lock order |
| `RuntimeLocks.ChainClimbs` | src/orcheo/hosted_apps/postgres_runtime.py:454-459 | along a chain of waiting transactions the class of the wanted lock rises strictly, if no two locks that the requests of the run name in different classes have the same hash |
| `RuntimeLocks.NoDeadlock` | src/orcheo/hosted_apps/postgres_runtime.py:139-408 | under that condition on the requests begun in a run, no state it reaches has a circle of waiting transactions, of any length |
| `RuntimeDeadlock.DeadlockIffTangled` | src/orcheo/hosted_apps/postgres_runtime.py:139-408 | a run of some requests can deadlock exactly when their lock hashes can tangle: some of them take their first few locks without sharing a hash, and each then wants a hash the next one has |
| `RuntimeDeadlock.UntangledNeverDeadlocks` | src/orcheo/hosted_apps/postgres_runtime.py:139-408 | without such a tangle among the requests begun, no run deadlocks, whatever else happens in it (rollbacks, settlements, replays, refusals) |
| `RuntimeDeadlock.TangleDeadlocks` | src/orcheo/hosted_apps/postgres_runtime.py:139-408 | any such tangle is reached by a run from the empty store, for any number of transactions |
| `RuntimeLocks.SomeoneCanMove` | src/orcheo/hosted_apps/postgres_runtime.py:139-408 | if the requests begun keep their classes apart, some open transaction of any reachable state waits for nobody |
| `RuntimeLocks.UnblockedWithoutCircle` | src/orcheo/hosted_apps/postgres_runtime.py:454-459 | in any state with open transactions and without a circle, some transaction waits for nobody |
| `RuntimeDeadlock.CollisionDeadlocks` | src/orcheo/hosted_apps/postgres_runtime.py:454-459 | if the hash of an idempotency key equals that of a client-address bucket of the same app, two accepts can wait for each other |
| `RuntimeDeadlock.CollisionsExist` | src/orcheo/hosted_apps/postgres_runtime.py:454-459 | for some hash function such a pair exists, so the order of classes alone does not exclude deadlock |
| `RuntimeRefinement.DurableRefinesReference` | src/orcheo/hosted_apps/postgres_runtime.py:73-350 | from empty stores on, every run of operations in the situations the two services share gets the same kind of answer from both at every step; every `status` is shared, and only a replay or `cancel` of a run that a stranger made the reference settle alone is not |
| `RuntimeRefinement.ReplayBehind` | src/orcheo/hosted_apps/runtime.py:141-194 | a replayed request tells such a reference from one that did not settle exactly when it replays such a run |
| `RuntimeRefinement.CancelAheadParts` | src/orcheo/hosted_apps/runtime.py:251-258 | cancelling such a run leaves it failed in the reference and cancelled in the database |
| `RuntimeRefinement.AcceptRefines` | src/orcheo/hosted_apps/postgres_runtime.py:138-237 | from related states both services accept, replay, conflict or refuse alike and stay related; their reasons for a refusal differ exactly when concurrency and an earlier limit are exhausted at once |
| `RuntimeRefinement.StatusRefines` | src/orcheo/hosted_apps/postgres_runtime.py:239-273 | `status` always answers alike, and keeps the states related exactly when the asker is not a stranger who comes after the timeout |
| `RuntimeRefinement.CompleteRefines` | src/orcheo/hosted_apps/postgres_runtime.py:275-324 | `complete` answers alike and keeps the states related exactly under a condition on the handle and, for a settled run, on the repeated report |
| `RuntimeRefinement.CancelRefines` | src/orcheo/hosted_apps/postgres_runtime.py:326-350 | `cancel` always keeps the states related, and answers alike exactly when the handle is not forgotten |
| `RuntimeRefinement.CancelledRunRevived` | src/orcheo/hosted_apps/runtime.py:227-249 | a late report revives a cancelled run in the reference only, after which the two services are no longer related |
| `RuntimeRefinement.ReserveDecides` | src/orcheo/hosted_apps/postgres_runtime.py:406-452 | releasing, counting and inserting spec by spec refuses exactly when some bucket was full at the start, and names the first full one |
| `RuntimeRefinement.ReserveAdds` | src/orcheo/hosted_apps/postgres_runtime.py:432-452 | a successful reservation releases only expired leases, inserts one lease per spec, and returns the concurrency leases |
| `RuntimeRefinement.CheckWindowsMeaning` | src/orcheo/hosted_apps/runtime.py:277-315 | checking deques in turn passes exactly when each window has room, and trimming forgets no event that still counts |
| `RuntimeRefinement.ConcurrencyCount` | src/orcheo/hosted_apps/postgres_runtime.py:390-430 | the live concurrency leases of a binding are as many as the unsettled runs the reference scans |
| `RuntimeRefinement.BucketsAgree` | src/orcheo/hosted_apps/postgres_runtime.py:364-430 | each durable bucket is full exactly when the window or slot count of the reference is |
| `ReferenceRuntime.AppRuntimeService.Accept` | src/orcheo/hosted_apps/runtime.py:88-194 | the locked, mutating service computes exactly the model `Accept` on its three dictionaries |
| `ReferenceRuntime.AppRuntimeService.EnforceInvocationLimits` | src/orcheo/hosted_apps/runtime.py:268-317 | the scan and the deque loops compute the modelled windows and the modelled refusal |
| `ReferenceRuntime.AppRuntimeService.PruneExpired` | src/orcheo/hosted_apps/runtime.py:329-347 | the loops that drop runs, keys and old events leave exactly the unexpired ones |
| `ReferenceRuntime.AppRuntimeService.PruneEvents` | src/orcheo/hosted_apps/runtime.py:329-347 | the loop over the deques drops the expired head of each, and deques left empty |
| `ReferenceRuntime.AppRuntimeService.ApplyTimeout` | src/orcheo/hosted_apps/runtime.py:320-327 | an unsettled run past its timeout becomes failed, and no other run changes |
| `ReferenceRuntime.AppRuntimeService.Status` | src/orcheo/hosted_apps/runtime.py:196-225 | `status` with its timeout settling, as the model says |
| `ReferenceRuntime.AppRuntimeService.Complete` | src/orcheo/hosted_apps/runtime.py:227-249 | `complete` as the model says |
| `ReferenceRuntime.AppRuntimeService.Cancel` | src/orcheo/hosted_apps/runtime.py:251-258 | `cancel` as the model says |
| `DurableRuntime.PostgresAppRuntimeService.Accept` | src/orcheo/hosted_apps/postgres_runtime.py:73-237 | the transaction, rolled back when it raises, computes exactly the model `Accept` on the tables |
| `DurableRuntime.PostgresAppRuntimeService.Rollback` | src/orcheo/hosted_apps/postgres_runtime.py:73-237 | an exception restores what the transaction found |
| `DurableRuntime.PostgresAppRuntimeService.ReserveLimits` | src/orcheo/hosted_apps/postgres_runtime.py:352-452 | the loop over the specs reserves exactly what the model reserves, or gives the modelled reason |
| `DurableRuntime.PostgresAppRuntimeService.Status` | src/orcheo/hosted_apps/postgres_runtime.py:239-273 | `status` as the model says, releasing the leases of a run it settles |
| `DurableRuntime.PostgresAppRuntimeService.Complete` | src/orcheo/hosted_apps/postgres_runtime.py:275-324 | `complete` as the model says, releasing the leases |
| `DurableRuntime.PostgresAppRuntimeService.Cancel` | src/orcheo/hosted_apps/postgres_runtime.py:326-350 | `cancel` as the model says, releasing the leases |
| `RuntimeIdempotency.AlwaysAgree` | src/orcheo/hosted_apps/runtime.py:141-194 | over any orderly run the idempotency map and the run map agree on handle and expiry, so a replay always finds its run |
| `RuntimeIdempotency.OneRunPerLifetime` | src/orcheo/hosted_apps/runtime.py:141-194 | after an operation created a run under a scope, another is created only once the clock passed the first run's expiry |
| `RuntimeIdempotency.OnlyAcceptanceSpends` | src/orcheo/hosted_apps/runtime.py:294-317 | a replay, a conflict or a refusal costs no rate event and no concurrency slot |
| `RuntimeIdempotency.PruneFreesNothing` | src/orcheo/hosted_apps/runtime.py:329-347 | pruning drops only what no longer counts against a limit |
| `InputSchema.CheckMeansSatisfies` | src/orcheo/hosted_apps/runtime.py:384-451 | on every accepted schema the recursive validator passes exactly the values that satisfy the declarative meaning of the keywords, unless it raises instead of giving a verdict |
| `InputSchema.NeverRaisesIff` | src/orcheo/hosted_apps/runtime.py:384-501 | an accepted schema raises on no value that Python can hold exactly when a recursive look through the schema finds no bound that is not a number and no `enum` that raises within reach of the declared types, the sizes of arrays, `items`, `properties` and the elements, parts or keys an `enum` names |
| `InputSchema.NeverUnsupported` | src/orcheo/hosted_apps/runtime.py:454-501 | no value makes an accepted schema be rejected for its own shape, at any depth |
| `InputSchema.AcceptedParts` | src/orcheo/hosted_apps/runtime.py:454-501 | the schemas inside an accepted schema are accepted |
| `InputSchema.ReachesMeans` | src/orcheo/hosted_apps/runtime.py:384-451 | for each element an `enum` lists, a scalar, list or dictionary of any depth, a structural recursion over it finds exactly whether some value equal to it (1, 1.0 and True; entries in any order) passes, or raises |
| `InputSchema.UntypedBoundRaises` | src/orcheo/hosted_apps/runtime.py:454-501 | a bound of the wrong type is stored unchecked and raises on every text, but is harmless behind a type no text has |
| `AppLifecycle.RunKeeps` | src/orcheo/hosted_apps/repository.py:184-764 | aliases, grants, releases and publication fields stay consistent in every state honest callers can reach |
| `AppLifecycle.ListedAppHasOneAlias` | src/orcheo/hosted_apps/repository.py:227-292 | every listed app has exactly one live alias, of its own workspace |
| `AppLifecycle.NoDanglingReads` | src/orcheo/hosted_apps/repository.py:216-243 | the answers "release unavailable", "unknown release" and "unknown app" cannot occur |
| `AppLifecycle.PublishedIsDelivered` | src/orcheo/hosted_apps/repository.py:535-576 | a published app nobody switched off is delivered through its alias, with a READY deployment of its own, the one `get_active_deployment_id` names |
| `AppLifecycle.StepRevises` | src/orcheo/hosted_apps/repository.py:294-464 | a capability change adds exactly one revision, and nothing but a publish moves the published revision |
| `AppLifecycle.ReviewFreshness` | src/orcheo/hosted_apps/repository.py:466-502 | from a publish on, the published revision equals the current one exactly when no capability changed since the last publish, visibility flips included |
| `AppLifecycle.LandsIffTimely` | apps/backend/src/orcheo_backend/app/routers/apps.py:355-388 | reading an app and writing it back without a lock: in every run each write leaves review and publication as the same edit of the current object would, exactly when no capability change, publish or unpublish of that app lies between a read and its write; such runs are honest |
| `AppLifecycle.StaleUpdateRewinds` | apps/backend/src/orcheo_backend/app/routers/apps.py:355-388 | over any reachable state and any run between read and write: the write takes the revision back exactly when the app gained more revisions than the edit adds, and makes an unreviewed app look reviewed exactly when the copy was reviewed, the edit names no visibility and a capability changed without a publish after it |
| `AppLifecycle.UnreviewedLooksReviewed` | apps/backend/src/orcheo_backend/app/routers/apps.py:355-388 | such a run from the empty repository: create, deploy, publish, read, save a binding, write back; the app looks reviewed, binding included |
| `AppRepositoryService.InMemoryHostedAppsRepository.CreateAppWithAlias` | src/orcheo/hosted_apps/repository.py:184-193 | the dictionaries change exactly as the model says, or not at all |
| `AppRepositoryService.InMemoryHostedAppsRepository.Update` | src/orcheo/hosted_apps/repository.py:245-259 | an update stores the whole object given, or refuses a foreign or unknown app |
| `AppRepositoryService.InMemoryHostedAppsRepository.RecordAudit` | src/orcheo/hosted_apps/repository.py:710-721 | one audit entry is appended, and nothing else changes |
| `AppRepositoryService.InMemoryHostedAppsRepository.PrepareAlias` | src/orcheo/hosted_apps/repository.py:684-708 | which alias may be taken, and the row to store |
| `AppRepositoryService.InMemoryHostedAppsRepository.Reserve` | src/orcheo/hosted_apps/repository.py:261-279 | the loop retires every other alias of the app after storing the new one |
| `AppRepositoryService.InMemoryHostedAppsRepository.GetAlias` | src/orcheo/hosted_apps/repository.py:281-292 | the scan finds the live alias of the app exactly when there is one |
| `AppRepositoryService.InMemoryHostedAppsRepository.CheckGrant` | src/orcheo/hosted_apps/repository.py:327-340 | the scan over live grants refuses exactly a name or id that is taken |
| `AppRepositoryService.InMemoryHostedAppsRepository.SaveOneBinding` | src/orcheo/hosted_apps/repository.py:327-351 | a binding is stored and the revision raised, as the model says |
| `AppRepositoryService.InMemoryHostedAppsRepository.DeleteOneBinding` | src/orcheo/hosted_apps/repository.py:365-383 | a live binding is tombstoned and the revision raised, as the model says |
| `AppRepositoryService.InMemoryHostedAppsRepository.SaveOneCollection` | src/orcheo/hosted_apps/repository.py:406-432 | a collection is stored and the revision raised, as the model says |
| `AppRepositoryService.InMemoryHostedAppsRepository.DeleteOneCollection` | src/orcheo/hosted_apps/repository.py:446-464 | a live collection is tombstoned and the revision raised, as the model says |
| `AppRepositoryService.InMemoryHostedAppsRepository.PublishRelease` | src/orcheo/hosted_apps/repository.py:466-502 | a release is checked and activated, as the model says |
| `AppRepositoryService.InMemoryHostedAppsRepository.UnpublishApp` | src/orcheo/hosted_apps/repository.py:504-513 | unpublishing, as the model says |
| `AppRepositoryService.InMemoryHostedAppsRepository.InvalidateBindings` | src/orcheo/hosted_apps/repository.py:385-404 | the two loops raise the revision of every dependent app once and of no other app |
| `AppRepositoryService.InMemoryHostedAppsRepository.AddNewDeployment` | src/orcheo/hosted_apps/repository.py:294-310 | a deployment is added, and a READY one with a manifest raises the revision |
| `AppRepositoryService.InMemoryHostedAppsRepository.ReserveForPlatform` | src/orcheo/hosted_apps/repository.py:578-591 | a platform alias is reserved, or refused if any row has it |
| `AppRepositoryService.InMemoryHostedAppsRepository.AddBlock` | src/orcheo/hosted_apps/repository.py:593-621 | a moderation block is stored with its audit entry |
| `AppRepositoryService.InMemoryHostedAppsRepository.LiftOneBlock` | src/orcheo/hosted_apps/repository.py:623-639 | a block is lifted once; lifting it again changes nothing |
| `AppRepositoryService.InMemoryHostedAppsRepository.SwitchRuntime` | src/orcheo/hosted_apps/repository.py:656-669 | every switch of the runtime raises its generation |
| `SupervisorLease.NeverTwoAdapters` | src/orcheo/listeners/supervisor.py:86-183 | with checks at most half a lease apart and no disturbance, at most one runtime runs an adapter of a subscription at any time |
| `SupervisorLease.LeasedIffUndisturbed` | src/orcheo/listeners/supervisor.py:161-183 | at that pace every running adapter holds an unexpired lease throughout a run exactly when no status write lands on a running adapter and none is started after its claim was lost |
| `SupervisorLease.DisturbanceShows` | apps/backend/src/orcheo_backend/app/repository/in_memory/listeners.py:221-245 | a disturbance at once leaves some running adapter without a lease |
| `SupervisorLease.RecoveriesOverlap` | src/orcheo/listeners/supervisor.py:185-224 | two runtimes that both listed a blocked subscription end up with two running adapters, without any operator action |
| `SupervisorLease.ReleaseOverlap` | src/orcheo/listeners/supervisor.py:273-297 | at the required pace and without any status write, two adapters run at once after the release of a returned adapter cleared the claim its own runtime's next pass had just renewed |
| `SupervisorPass.RunsWhatItMay` | src/orcheo/listeners/supervisor.py:106-159 | a pass leaves an adapter running exactly for the subscriptions it may and can run, each under a lease with more than half left |
| `SupervisorPass.GivesBackTheRest` | src/orcheo/listeners/supervisor.py:106-159 | what a pass does not run it does not hold, and it never touches a lease another runtime holds |
| `SupervisorPass.PassIsStable` | src/orcheo/listeners/supervisor.py:161-183 | a second pass within half a lease renews nothing and changes nothing |
| `SupervisorPass.FailuresOnRecord` | src/orcheo/listeners/supervisor.py:226-245 | a failed build stays on record only for a subscription the pass claimed; the record of a failed recovery is dropped by the pass that made it |
| `SupervisorPass.ListenerSupervisor.RunOnce` | src/orcheo/listeners/supervisor.py:106-159 | the whole pass with its loops brings every subscription to the reconciled state, and forgets the unlisted |
| `SupervisorPass.ListenerSupervisor.PrepareSubscription` | src/orcheo/listeners/supervisor.py:161-224 | claiming, renewing and recovering one listed row: what is claimed, what is ready and what the row becomes |
| `SupervisorPass.ListenerSupervisor.StartSubscription` | src/orcheo/listeners/supervisor.py:116-146 | an adapter is started for a claimed subscription exactly when one runs, is ready or can be built; otherwise the lease is released or the row blocked |
| `SupervisorPass.ListenerSupervisor.StopAdapter` | src/orcheo/listeners/supervisor.py:273-297 | a stopped adapter releases only its own lease and is forgotten |
| `SupervisorPass.ListenerSupervisor.StopStale` | src/orcheo/listeners/supervisor.py:147-159 | the loop stops exactly the adapters of subscriptions no longer active here |
| `SupervisorPass.ListenerSupervisor.ForgetStale` | src/orcheo/listeners/supervisor.py:147-159 | the loop drops exactly the build failures of subscriptions no longer active here |
| `SupervisorPass.ListenerSupervisor.RecordFailure` | src/orcheo/listeners/supervisor.py:226-245 | a build failure is counted on |
| `SupervisorPass.ListenerRepository.Claim` | apps/backend/src/orcheo_backend/app/repository/in_memory/listeners.py:97-127 | a claim is granted only if no other runtime holds an unexpired lease |
| `SupervisorPass.ListenerRepository.ReleaseSubscription` | apps/backend/src/orcheo_backend/app/repository/in_memory/listeners.py:129-146 | a release clears the lease exactly if the caller holds it |
| `SupervisorPass.ListenerRepository.UpdateStatus` | apps/backend/src/orcheo_backend/app/repository/in_memory/listeners.py:221-245 | a status write clears holder and expiry |
| `GatewayModel.NeverOvertakes` | src/orcheo/listeners/discord.py:351-464 | whatever fails and however often the adapter reconnects, every event at or below the stored sequence of the stored session was handled |
| `GatewayModel.NothingSkipped` | src/orcheo/listeners/discord.py:210-274 | on an open connection every logged frame was handled or is still to be delivered |
| `GatewayModel.ResumeRedelivers` | src/orcheo/listeners/qq.py:470-508 | after a resume every unhandled frame of the session is still to be delivered |
| `GatewayModel.HandledLaterIff` | src/orcheo/listeners/discord.py:307-349 | after any run and a disconnect, an unhandled frame can still be handled in some continuation exactly when the stored cursor resumes its session; an IDENTIFY gives up exactly the unhandled frames of earlier sessions |
| `GatewayModel.InvalidSessionIdentifies` | src/orcheo/listeners/discord.py:386-413 | after any run, an invalid-session frame makes the next start IDENTIFY exactly when the cleared cursor was stored or nothing resumable was; an unhandled frame survives it exactly when the save was lost and the stored cursor resumes its session |
| `GatewayModel.StoredIsResumable` | src/orcheo/listeners/qq.py:470-508 | in every reachable state QQ can resume any session it has stored, and Discord exactly those stored with a resume URL |
| `GatewayCursor.GatewayAdapter.HandleGatewayFrame` | src/orcheo/listeners/discord.py:351-384 | the frame handler moves sequence, cursor and stored cursor in the modelled order for every place a call can raise |
| `GatewayCursor.GatewayAdapter.HandleNonDispatch` | src/orcheo/listeners/qq.py:548-578 | reconnect, invalid session and heartbeat frames, as the model says |
| `GatewayCursor.GatewayAdapter.SaveCursor` | src/orcheo/listeners/discord.py:415-464 | a save stores the whole cursor, and its failure ends the frame |
| `TelegramModel.NoUpdateLost` | src/orcheo/listeners/telegram.py:120-189 | in every reachable state an emitted update was handled or can still be fetched, and everything below the stored offset was handled |
| `TelegramModel.QuietPollAdvances` | src/orcheo/listeners/telegram.py:151-189 | a poll nothing breaks handles every update of its batch and nothing else, and leaves exactly the updates behind the batch for the next |
| `TelegramModel.QuietPollsDrain` | src/orcheo/listeners/telegram.py:120-149 | once nothing breaks any more, as many polls as there are updates left handle everything the server ever emitted |
| `TelegramCursor.TelegramPollingAdapter.HandleBatch` | src/orcheo/listeners/telegram.py:151-189 | the loop over a batch handles a prefix, and stores and keeps the offset exactly when the source does |
| `IdentityModel.StepsAgree` | src/orcheo/identity/postgres_store.py:253-748 | dictionary store and conditional SQL give the same answer and the same rows exactly when the call is no late decision on a consumed request |
| `IdentityModel.ChallengesAgree` | src/orcheo/identity/postgres_store.py:253-329 | consuming a challenge and counting a guess decide and store alike |
| `IdentityModel.SessionsAgree` | src/orcheo/identity/postgres_store.py:382-447 | storing and rotating a session decide and store alike |
| `IdentityModel.PasskeysAgree` | src/orcheo/identity/postgres_store.py:583-684 | adding, using, renaming and deleting passkeys agree |
| `IdentityModel.TicketsAgree` | src/orcheo/identity/postgres_store.py:695-748 | issuing and consuming passkey challenges agree |
| `IdentityModel.RequestsAgree` | src/orcheo/identity/postgres_store.py:535-579 | consuming a code agrees always; storing a decision agrees exactly when the copy carries the stored consumption |
| `IdentityGuarantees.RunsAgree` | src/orcheo/identity/repository.py:288-543 | when codes are presented only after they were issued, whole runs of the two stores are indistinguishable |
| `IdentityGuarantees.EarlyCodeConsumedTwice` | src/orcheo/identity/repository.py:423-442 | without that order the dictionary reopens a consumed code, and the SQL does not |
| `IdentityGuarantees.RevocationIsPermanent` | src/orcheo/identity/repository.py:349-386 | in either store a revoked session stays revoked with its first timestamp over any run, whatever stale copies are stored |
| `IdentityGuarantees.OneWinnerPerHash` | src/orcheo/identity/repository.py:360-373 | in either store at most one rotation of a run ever wins with a given refresh hash, although a revocation with a stale copy may write an older hash back |
| `IdentityGuarantees.ChallengeConsumedOnce` | src/orcheo/identity/repository.py:288-310 | in either store a challenge is consumed at most once, by whichever of any interleaved callers comes first |
| `IdentityGuarantees.CodeConsumedOnce` | src/orcheo/identity/postgres_store.py:562-579 | an authorization code is consumed at most once in SQL (section 4.1.2 of RFC 6749); in the dictionary never more than twice, and twice exactly when a late decision reopened it and it was consumed again |
| `IdentityGuarantees.TicketConsumedOnce` | src/orcheo/identity/repository.py:515-543 | in either store a passkey challenge answers at most once, and never after it was purged |
| `IdentityGuarantees.GuessesCounted` | src/orcheo/identity/repository.py:312-326 | in either store no failed guess of a run is lost, and their number never passes the limit |
| `IdentityGuarantees.SignCountNeverDrops` | src/orcheo/identity/repository.py:470-491 | in either store, over any run, the signature counter of a passkey still there is no lower than before nor than any count recorded |
| `IdentityGuarantees.DiagnosisHolds` | src/orcheo/identity/postgres_store.py:308-329 | a challenge whose UPDATE found it missing, consumed or expired is never diagnosed as locked after any further run |
| `IdentityStores.InMemoryIdentityRepository.RevokeSessions` | src/orcheo/identity/repository.py:375-386 | the loop over the sessions revokes exactly the unrevoked ones of the user |
| `IdentityStores.InMemoryIdentityRepository.IssueTicket` | src/orcheo/identity/repository.py:515-522 | the loop deletes exactly the expired tickets before the new one is stored |
| `IdentityStores.InMemoryIdentityRepository.Rotate` | src/orcheo/identity/repository.py:360-373 | the dictionary form of a rotation, as the model says |
| `IdentityStores.InMemoryIdentityRepository.Consume` | src/orcheo/identity/repository.py:288-310 | the dictionary form of consuming a challenge, as the model says |
| `IdentityStores.InMemoryIdentityRepository.Guess` | src/orcheo/identity/repository.py:312-326 | the dictionary form of counting a guess, as the model says |
| `IdentityStores.InMemoryIdentityRepository.Update` | src/orcheo/identity/repository.py:349-358 | the dictionary form of storing a session: a stale copy cannot clear a revocation |
| `IdentityStores.InMemoryIdentityRepository.RedeemCode` | src/orcheo/identity/repository.py:433-442 | the dictionary form of consuming a code, as the model says |
| `IdentityStores.InMemoryIdentityRepository.RedeemTicket` | src/orcheo/identity/repository.py:524-543 | the dictionary form of consuming a passkey challenge, as the model says |
| `IdentityStores.InMemoryIdentityRepository.UsePasskey` | src/orcheo/identity/repository.py:470-491 | the dictionary form of recording a passkey use, as the model says |
| `IdentityStores.InMemoryIdentityRepository.StoreDecision` | src/orcheo/identity/repository.py:423-431 | the dictionary form of a decision, as the model says |
| `IdentityStores.PostgresIdentityStore.Consume` | src/orcheo/identity/postgres_store.py:253-283 | the UPDATE and the statement that explains its failure, as the model says |
| `IdentityStores.PostgresIdentityStore.ExplainFailure` | src/orcheo/identity/postgres_store.py:308-329 | the diagnosis of an UPDATE without effect |
| `IdentityStores.PostgresIdentityStore.Guess` | src/orcheo/identity/postgres_store.py:285-306 | the UPDATE that counts a guess, as the model says |
| `IdentityStores.PostgresIdentityStore.Update` | src/orcheo/identity/postgres_store.py:382-404 | the conditional UPDATE that stores a session, as the model says |
| `IdentityStores.PostgresIdentityStore.StoreDecision` | src/orcheo/identity/postgres_store.py:535-560 | the conditional UPDATE that stores a decision, as the model says |
| `IdentityStores.PostgresIdentityStore.RedeemCode` | src/orcheo/identity/postgres_store.py:562-579 | the conditional UPDATE that consumes a code, as the model says |
| `IdentityStores.PostgresIdentityStore.Rotate` | src/orcheo/identity/postgres_store.py:420-447 | the conditional UPDATE of a rotation, as the model says |
| `DeploymentModel.MaterializeKeepsOrder` | src/orcheo/hosted_apps/deployments.py:141-150 | after every store call, failing ones included, a generated manifest exists only with every asset it lists, whatever the members are called |
| `DeploymentModel.OrderHoldsIffUnreserved` | src/orcheo/hosted_apps/deployments.py:141-150 | whatever stands under the name of the manifest is a complete manifest, through every materialization of some files and all faults, exactly when no file has that name |
| `DeploymentModel.MaterializeMeans` | src/orcheo/hosted_apps/deployments.py:141-150 | materialization removes nothing and adds only the files and the manifest; if it succeeds all of them are there |
| `DeploymentModel.RunKeepsOrder` | src/orcheo/hosted_apps/deployments.py:43-150 | over any sequence of calls and faults a generated manifest exists only with all it lists; and whatever has its name is one, if no staged archive holds a member of that name |
| `DeploymentModel.ReadyMeansComplete` | src/orcheo/hosted_apps/deployments.py:84-128 | in every reachable state a READY deployment belongs to one completed upload, its prefix holds exactly the files validated for the staged archive and their manifest, and its record names that archive, however often completions failed before |
| `DeploymentModel.FailureCleansUp` | src/orcheo/hosted_apps/deployments.py:84-128 | a failed completion leaves nothing under the prefix exactly when the clean-up took effect, or the prefix was empty and no write took effect; it touches no other prefix |
| `DeploymentModel.FailureLeavesObjects` | src/orcheo/hosted_apps/deployments.py:84-128 | a run that leaves objects behind: the second write and the clean-up raise |
| `DeploymentModel.TerminalForever` | src/orcheo/hosted_apps/deployments.py:169-181 | a completed, failed or expired upload is never written again |
| `DeploymentModel.ReadyIsImmutable` | src/orcheo/hosted_apps/deployments.py:84-128 | once READY, the record and the objects of a deployment stay as they are through any later run of calls with fresh ids |
| `Deployment.DeploymentService.CompleteUpload` | src/orcheo/hosted_apps/deployments.py:84-128 | the method on the shared store does what the model says for every place a call can raise |
| `Deployment.DeploymentService.WriteAll` | src/orcheo/hosted_apps/deployments.py:141-150 | the loop passes through exactly the modelled store states, and stops at the first failure |
| `Deployment.DeploymentService.StageUpload` | src/orcheo/hosted_apps/deployments.py:77-82 | staging writes an archive once; the staging key is set only when the write returned |
| `Deployment.PostgresBundleStore.WriteStaged` | src/orcheo/hosted_apps/bundle_store.py:179-183 | a second archive for the same upload is refused unless it is the same |
| `Deployment.DeploymentService.InitiateUpload` | src/orcheo/hosted_apps/deployments.py:43-75 | an upload and its deployment are created together, or neither |
| `Deployment.DeploymentService.CheckPending` | src/orcheo/hosted_apps/deployments.py:169-181 | an upload past its time is marked expired, a terminal one is refused |
| `Deployment.DeploymentService.FailUpload` | src/orcheo/hosted_apps/deployments.py:84-128 | a failure marks upload and deployment failed and deletes the prefix |
| `Deployment.PostgresBundleStore.WriteObject` | src/orcheo/hosted_apps/bundle_store.py:250-265 | an object is written once: a second write succeeds exactly for the same content, and never overwrites |
| `Deployment.PostgresBundleStore.DeletePrefix` | src/orcheo/hosted_apps/bundle_store.py:211-225 | a deletion removes every object of the deployment and no other, or nothing when it fails without effect |
| `BundleKeys.EscapesAgree` | src/orcheo/hosted_apps/bundle_store.py:211-225 | the three successive replacements equal one escape per character |
| `BundleKeys.PatternMatchesSubtree` | src/orcheo/hosted_apps/bundle_store.py:211-225 | the LIKE pattern matches exactly the keys that start with the prefix and a slash, for every prefix |
| `BundleKeys.UnescapedMatchesSiblings` | src/orcheo/hosted_apps/bundle_store.py:211-225 | without the escape an underscore would match siblings, with it only itself |
| `BundleKeys.SameDeletion` | src/orcheo/hosted_apps/bundle_store.py:97-110 | PostgreSQL and the filesystem delete the same files, those below the prefix by components |
| `BundleKeys.BelowInKeys` | src/orcheo/hosted_apps/bundle_store.py:97-110 | one path is below another exactly when its key equals the other's or continues it after a slash |
| `BundleKeys.AcceptedIsNormal` | src/orcheo/hosted_apps/bundle_store.py:134-140 | an accepted relative path has no empty, dot or dot-dot component |
| `BundleKeys.PartsOfJoin` | src/orcheo/hosted_apps/bundle_store.py:134-140 | components survive the round trip through a key |
| `BundleKeys.OwnedKeysAreUnderRoots` | src/orcheo/hosted_apps/bundle_store.py:296-303 | a key is owned exactly when it normalizes to a path under one of the two roots |
| `BundleKeys.DeploymentPrefixIsOwned` | src/orcheo/hosted_apps/bundle_store.py:296-303 | the prefix a discard asks to delete is owned, and kept as it is |
| `BundleKeys.S3RefusesDiscard` | src/orcheo/hosted_apps/bundle_store.py:414-441 | for every store prefix: the S3 store accepts the prefix a discard passes exactly when its own prefix is `deployments` or that very prefix, and removes a file it wrote only in the second case |
| `BundleValidation.AcceptedIff` | src/orcheo/hosted_apps/zip_validation.py:172-232 | a bundle is accepted exactly when it has few enough members, each is in order, no two paths fold alike, the bytes fit the budget and a root page is there; what is listed is exactly its files |
| `BundleValidation.StreamingIsDeclarative` | src/orcheo/hosted_apps/zip_validation.py:172-232 | from any point of the loop, with any paths seen and bytes expanded, the rest is accepted exactly when it is in order as a whole |
| `BundleValidation.StreamMeansTotal` | src/orcheo/hosted_apps/zip_validation.py:299-333 | stopping in the middle of a member refuses exactly the members whose whole size passes a budget |
| `BundleValidation.NormalizeIsIdempotent` | src/orcheo/hosted_apps/zip_validation.py:261-285 | normalizing a normalized path changes nothing |
| `BundleValidation.ExtractableIffCanonical` | src/orcheo/hosted_apps/deployments.py:141-150 | every listed file of an accepted bundle can be opened by its listed path exactly when each file was spelled in normalized form |
| `BundleValidation.AcceptedButNotExtractable` | src/orcheo/hosted_apps/zip_validation.py:261-285 | a page spelled with a leading dot component is accepted and cannot be opened under its listed path |
| `BundleValidation.ManifestNameIsAccepted` | src/orcheo/hosted_apps/zip_validation.py:261-285 | the name of the bundle manifest is reserved nowhere: a page and a member of that name are accepted and listed |
| `BundleValidation.ListedOnce` | src/orcheo/hosted_apps/zip_validation.py:172-232 | no two listed files have the same path |
| `BundleValidation.HashMember` | src/orcheo/hosted_apps/zip_validation.py:299-333 | the chunk loop reads or stops exactly as the recursive form says |
| `BundleValidation.ValidateZip` | src/orcheo/hosted_apps/zip_validation.py:172-232 | the loop with its set, counter and list gives exactly the specified verdict, first error first |
| `PoolModel.CountsAreHolders` | src/orcheo/postgres_pools.py:108-159 | for every interleaving that pauses at awaits, the count of an entry is the number of holders of its pool, and positive |
| `PoolModel.HeldPoolsAreOpen` | src/orcheo/postgres_pools.py:108-159 | a pool somebody holds is the one pool mapped for its key, and open |
| `PoolModel.AcquireReturnsOpenPool` | src/orcheo/postgres_pools.py:108-143 | a pool an acquire is about to return is open, and storing a new one never replaces another |
| `PoolModel.ClosedForever` | src/orcheo/postgres_pools.py:146-159 | a closed pool is never held again |
| `PoolModel.StepKeeps` | src/orcheo/postgres_pools.py:108-159 | a step keeps every count right exactly when, if it is a release, its caller holds the pool |
| `PoolModel.UnpairedBreaks` | src/orcheo/postgres_pools.py:146-159 | any other release spoils the counts |
| `AsyncPools.SharedPools.Share` | src/orcheo/postgres_pools.py:108-143 | inside the lock an existing entry is shared with one more reference, and nothing else changes |
| `AsyncPools.SharedPools.Store` | src/orcheo/postgres_pools.py:108-143 | a new pool is stored with exactly one reference |
| `AsyncPools.SharedPools.Release` | src/orcheo/postgres_pools.py:146-159 | the loop gives back one reference of the pool's entry, or removes the entry and closes the pool |
| `DocumentPaging.ListingWhileWriting` | src/orcheo/hosted_apps/data.py:112-142 | however records are written and deleted between the calls, a listing that ends lists no key twice, in key order, only keys that were there at some call, and every record that was there throughout exactly once |
| `DocumentPaging.QuietListing` | src/orcheo/hosted_apps/data.py:112-142 | with no writes in between, a listing of any scope ends and lists exactly its keys, filtered and sorted from all records |
| `DocumentPaging.PagingListsEverything` | src/orcheo/hosted_apps/data.py:112-142 | following `next_cursor` through a sorted scope, with any page size, takes at most one call more than there are records |
| `DocumentPaging.EmptyKeyStartsOver` | src/orcheo/hosted_apps/data.py:225-237 | the cursor of a key leads behind that key exactly when the key is not empty, and starts over otherwise |
| `CursorCodec.CursorRoundTrip` | src/orcheo/hosted_apps/data.py:225-237 | decoding the unpadded base64url cursor gives the key back for every key (sections 3.2 and 5 of RFC 4648) |
| `CursorCodec.PadRestores` | src/orcheo/hosted_apps/data.py:231-237 | the padding added when decoding is exactly what was stripped |
| `DocumentPaging.LimitHolds` | src/orcheo/hosted_apps/data.py:46-93 | no owner ever holds more records of a collection than the limit of that collection |
| `DocumentPaging.OneWriterPerVersion` | src/orcheo/hosted_apps/data.py:46-93 | among writers that expect the same version of a document at most one wins, and at most one more each time the document is deleted |
| `DocumentPaging.SecondWinnerAfterRemoval` | src/orcheo/hosted_apps/data.py:46-93 | after a deletion and a new creation the versions start over, and a second writer that expects version 1 wins |
| `DocumentPaging.OneWriterPerRecord` | src/orcheo/hosted_apps/data.py:46-93 | whatever is deleted and created meanwhile, each version of each record id is overwritten by at most one of the writers that expect it |
| `DocumentPaging.WalkCounts` | src/orcheo/hosted_apps/data.py:209-223 | the recursive walk with its shared counter accepts exactly the documents within both limits, and counts every key once |
| `DocumentPaging.AppDataService.PutDocument` | src/orcheo/hosted_apps/data.py:46-93 | a put creates, replaces or refuses, as the model says |
| `DocumentPaging.AppDataService.DeleteDocument` | src/orcheo/hosted_apps/data.py:144-165 | a delete removes or refuses, as the model says |
| `TemplateModel.DecodeRefinesRebuild` | src/orcheo/nodes/base.py:86-189 | copy-on-write decoding yields for every value exactly what rebuilding everything yields, exceptions included, and "same object" means an equal rebuild |
| `TemplateModel.OverlayChangedIsOverlayAll` | src/orcheo/nodes/base.py:191-196 | overlaying only the changed fields equals overlaying all decoded fields |
| `TemplateModel.CopyEqualsInPlace` | src/orcheo/nodes/base.py:304-342 | a resolved copy has the fields of in-place decoding exactly unless the stored model equals the selected one and decodes to something else; only the model can differ |
| `TemplateModel.TemplateSelectedAsModel` | src/orcheo/nodes/base.py:304-342 | such a case: the run selects the template the field holds; the copy gets the model it names, in-place decoding the template itself |
| `TemplateDecoding.DecodeValue` | src/orcheo/nodes/base.py:86-189 | the loops with their `any_changed` flag compute the specified decoding |
| `TemplateDecoding.Runnable.DecodeAll` | src/orcheo/nodes/base.py:191-196 | one pass over the fields gives all decoded fields and the changed ones, or raises |
| `TemplateDecoding.Runnable.DecodeVariables` | src/orcheo/nodes/base.py:304-312 | in-place decoding overlays everything and then the run updates, or stores nothing if a field raises |
| `TemplateDecoding.Runnable.ResolvedForRun` | src/orcheo/nodes/base.py:327-342 | the object itself is never written; it is returned exactly when nothing changes, otherwise a new one with the specified fields |

## Left out

- RuntimeDeadlock.DeadlockIffTangled: its requests pass the gate, carry the client address their limits ask for, and have limits of at least one, as the binding model guarantees; others take fewer locks. PostgreSQL's deadlock detector, which aborts one of the waiting transactions, is not modelled.
- RuntimeLocks.SomeoneCanMove: only advisory locks make a transaction wait here; row locks inside one SQL statement (two transactions that delete the same expired rows) are not modelled.
- SupervisorLease.NeverTwoAdapters: the subscriptions are independent, so it speaks of one; that successive checks are at most half a lease apart is a hypothesis, which the constructor's guard on the interval cannot ensure by itself when a pass takes long.
- SupervisorPass.ListenerSupervisor.RunOnce: the clock is read once per subscription and an adapter does not stop by itself during a pass.
- DeploymentModel.FailureCleansUp: deletion of a prefix is one step, as in PostgreSQL; the filesystem store can stop half way.
- DeploymentModel.ReadyMeansComplete: expired staged archives are not deleted (`delete_expired_staging`), and the store is the write-once PostgreSQL one; the filesystem and S3 stores overwrite.
- AppLifecycle.StaleUpdateRewinds: one stale write; several stale writers of one app are covered by `AppLifecycle.LandsIffTimely`. Name, description and the archived flag are overwritten as well, without a field that would tell.
- DocumentPaging.ListingWhileWriting: with writes in between, a listing need not end; nothing is said of how many calls it takes.
- CursorCodec.CursorRoundTrip: cursors the service did not produce are left out; Python ignores foreign characters when it decodes them.
- IdentityModel.ChallengesAgree: the UPDATE and the SELECT that explains it are one step; `IdentityGuarantees.DiagnosisHolds` covers what may happen between them for closed challenges.
- TemplateModel.DecodeRefinesRebuild: a rebuilt mapping is a plain mapping, so the loss of a `Mapping` subclass is not visible; `AgentNode` overrides `_compute_run_updates` and is not part of this model.
- BundleValidation.AcceptedIff: suffix rules, NFC and case folding, magic bytes, and the parsers of manifests and HTML pages are parameters; the size of the archive file itself is not modelled.
- Adapter status, failure counts, back-off and heartbeats of the listeners: they do not affect cursors.
- psycopg, connection pools as objects, row mappers, schema DDL and migrations: tables are maps of rows.
- HTTP, WebSocket and gateway wire decoding, event normalization and filters: a frame is dispatched, filtered or ignored.
- SHA-256, HMAC, encryption, random tokens, UUIDs, JSON text encoding and Unicode normalization: injective or abstract.
- Alias and binding name normalization: names are compared as stored.
- `update_challenge` with arbitrary stale objects, and e-mail changes through `update_user`: they overwrite, with no invariant to keep.
- Atomicity of `add_deployment` and of multi-app invalidation under a raising audit hook: the in-memory form commits part of the change first.
- `delete_expired_staging`, `migrate_filesystem_bundles`, reading of bundle objects, and order and size of pages in `list_apps_page`.
- src/orcheo/hosted_apps/governance.py and src/orcheo/hosted_apps/auth.py: easier instances of lease bounds and single use.
- Settings, registries, `WorkflowRun` status methods, Mermaid rendering and connector nodes: little state.
