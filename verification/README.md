# A verified model of the multi-cluster Kubernetes console

The console is a Go server with a TypeScript front end. This project models its protocols and its small
functional cores in Dafny and proves what they keep on every run:

- **Channel subscriptions.** `BrowserSession` and `WebSocketService` are the browser's reference-counted
  subscriptions, `SubscriptionProtocol` joins them to the server's per-connection channel set through a queue
  of actions in flight. `ChannelAuth`, `HubProtocol` and `Hub` are the authorization filter and the hub with
  its client map, queues and shutdown.
- **Backup tasks.** `BackupTasks` is the protocol between submitters, the task table, the Redis stream and any
  number of workers that may crash at any point; `BackupRecords` and `BackupProgress` say what its runs record and
  what can still happen on them; `TaskStore` is the shared state updated in place and the worker's handlers.
  `BatchBackup` is the namespace batch, `ObjectKeys`, `Paths` and `LocalStore` its storage keys and the store that
  deletes by prefix, `Restore` the application of a restored object.
- **Cluster clients.** `ClusterCache` is the client cache with its double-checked lock, `ClusterManager` the
  object whose calls run against arbitrary interference, `Envelope` the encrypted kubeconfig and the associated data
  it takes from its row.
- **Version history.** `VersionHistory` compares the pruned snapshot table with an unbounded log,
  `VersionManager` is the object.
- **Tokens.** `TokenRotation` and `AuthService` are the server's rotation and deny list, `BrowserRefresh` and
  `RequestModule` the browser's single-flight refresh against it.
- **Permissions.** `Permissions` holds the permission check, the scope queries and the loader, `RoleSeed` the
  expansion of wildcard patterns.

`Basics` and `Text` hold the options, enumerations and string operations the others share.

Each protocol is a `State` with a total `Next(s, e)`, in which an event that is not possible leaves the state
alone, so quantifying over all event lists is quantifying over all interleavings. An invariant is proved for
every step and lifted to every run by induction on the event list; the main results quote it. Code that updates
an object is also a class, whose methods are proved equal to the steps. `dafny verify dfyconfig.toml` checks
the whole project.

## What the model takes for granted

- Strings are sequences of characters and stand for byte strings; numbers are unbounded.
- I/O, clocks, random names and other people's calls are parameters: a call that can fail takes a flag that says
  whether it does, a lookup takes its answer.
- Go maps and JavaScript maps and sets are visited in an arbitrary order.
- The reconnecting socket delivers no `open` after a `close`; one `Register` is made per hub client; everything
  that awaits a settled promise continues before the next network event.
- In the backup protocol the failure write of a submission succeeds, an XADD error means that nothing was added,
  and a failed database call leaves the rows unchanged. The messages in the stream are those of the submitters, or
  malformed. A batch finishes within one date.
- Transactions of the version store are serialized. Applying an object replaces it, and the YAML text of an object
  determines it.
- Rounding to floating point keeps the order, is exact on 0, 1 and 80, and errs by at most one unit in 2^53
  (`BatchBackup.RoundsLikeFloat64`).
- The AEAD obeys the laws written in `Envelope.Lawful`, and the keys in use do not open each other's texts. Token
  ids are never reused; a process does not lose a goroutine between a database write and the invalidation after it.

## What turned out not to hold in general

Each of these is stated with the exact condition under which the code does what is expected of it.

- The guard of the storage join does not reject keys that climb: its test for a leading `../` compares two bytes
  with three and never holds, so only the key `..` is caught there and the containment test has to catch the rest.
  It does: every accepted path is inside the base (`Paths.JoinedStaysInside`). But a climbing key is accepted when
  it names the directories it left again (`Paths.AcceptedKeys`, `Paths.ClimbingKeys`), contrary to the comment at
  backend/internal/plugins/storage/nfs.go:109.
- Among the accepted keys, local `Upload` and `Download` address different files exactly for absolute keys under a
  base other than the root (`Paths.UploadAndDownloadAgree`).
- A batch is found under its stored prefix exactly when its cluster code consists of ordinary names and has no
  backslash (`LocalStore.PrefixFindsItsObject`); the import accepts any non-empty code. The prefix selects objects
  of another task exactly when that task's code holds the whole prefix (`ObjectKeys.MixingIsExact`,
  `LocalStore.PrefixSelectsExactlyTheTask`).
- The loader confuses scopes exactly when one cluster code extends another by a bar (`Permissions.LoaderIsExact`).
- Two rows share associated data although they differ exactly when a code continues another by digits of the
  creator id (`Envelope.SharedAadIsExact`).
- The expansion of role patterns agrees with the permission check exactly for actions that are the star, or do not
  end like a wildcard under a non-empty module (`RoleSeed.ExpansionIsExact`). The permission table is a constant of
  the program and all its rows are of that kind, so this concerns tables the program does not have.
- A name list survives the batch payload exactly when no name holds a comma and it is not the one empty name
  (`BatchBackup.PayloadRoundTrip`).
- A refresh token is redeemed at most once exactly when no two refreshes of it overlap
  (`TokenRotation.RotationIsExact`).
- A page reload can make the browser present a spent token exactly when the refresh under way concerns the stored
  login and has rotated it or still would (`BrowserRefresh.ReloadIsExact`).
- A logout does not last exactly when a refresh is under way that has already been answered with a token, or whose
  token is live and not the one being logged out: its answer stores a login again (`BrowserRefresh.LogoutIsExact`).
- A running task can still be settled exactly while a worker is executing it or about to record its failure: after a
  crash, or a failure write that fails, its row stays running for ever (`BackupProgress.RunningRowIsExact`).
- The two refusals at the head of a restore, for an empty path and for the prefix of a batch, never happen: every
  restore row has the path of a single object (`BackupRecords.ExecutorHasResult`).
- The state a rollback replaces can be looked up afterwards exactly when at least two versions are kept
  (`VersionHistory.SavedStateSurvives`).
- A reply of a read pump is sent on a closed queue exactly when the hub's stop case has closed the client while the
  pump was reading (`HubProtocol.ReplyFaultIsExact`).

## Model

| member | source | states |
|---|---|---|
| `SubscriptionProtocol.Convergence` | frontend/src/app/services/websocket.ts:82-97 | On every run of subscribe, unsubscribe, connect, open, drop, token change and logout, while the socket is open, applying the actions in flight in order to the server's channel set gives exactly the channels that some component uses, judged by the calls alone, and that the connection's tree authorizes |
| `SubscriptionProtocol.ServerCatchesUp` | backend/internal/websocket/handler.go:156-167 | From any moment of any run with a live connection, reading as many actions as are in flight brings the server's own set to exactly the authorized channels in use |
| `SubscriptionProtocol.CountsAreTheCalls` | frontend/src/app/services/websocket.ts:259-284 | On every run the count of a channel is the net number of subscribers that the list of calls leaves, logouts included, and there is an entry exactly when that number is positive |
| `SubscriptionProtocol.SessionFollowsTheCalls` | frontend/src/app/services/websocket.ts:232-255 | On every run there is a session exactly after a connect call that no cleanup or logout followed, with the token of the last connect call, and it retries exactly until that token is refused |
| `SubscriptionProtocol.ReconnectIsIdle` | frontend/src/app/services/websocket.ts:233-236 | Connecting again with the present token changes neither browser, wire nor server |
| `SubscriptionProtocol.ReopeningRestores` | frontend/src/app/services/websocket.ts:82-119 | Whenever a session that was not refused is down, it can open again under any tree, and reading what it sends gives the server exactly the authorized channels in use |
| `SubscriptionProtocol.ReadingEmptiesTheQueue` | backend/internal/websocket/handler.go:140-168 | Reading in order consumes the queue and arrives at what draining it promised |
| `SubscriptionProtocol.ReduxMirrorsRefs` | frontend/src/hooks/useWebSocket.ts:26-44 | The Redux list of an open session is the channels in use without duplicates, and empty when there is no session |
| `SubscriptionProtocol.RecordedChannelsAreAuthorized` | backend/internal/websocket/handler.go:156-163 | At every moment the server records only channels that the connection's tree allows |
| `SubscriptionProtocol.DrainOnOpen` | frontend/src/app/services/websocket.ts:85-95 | What the open handler sends, restored and pending channels in any order, amounts to the wanted channels |
| `SubscriptionProtocol.StepKeepsInv` | frontend/src/app/services/websocket.ts:154-184 | Every browser, network and server step keeps the invariant that ties counts, pending set, queue and server set together |
| `BrowserSession.AddAllLaw` | frontend/src/slices/wsSlice.ts:146-152 | Repeated adding yields the union and never a duplicate |
| `BrowserSession.RemoveSubscriptionLaw` | frontend/src/slices/wsSlice.ts:153-155 | Removing takes out exactly the one channel and keeps the list duplicate-free |
| `WebSocketService.WebSocketClient.SendRaw` | frontend/src/app/services/websocket.ts:154-169 | An open socket sends; a closed one only adds to or takes from the pending set |
| `WebSocketService.WebSocketClient.Subscribe` | frontend/src/app/services/websocket.ts:173-177 | The session and the sent actions become those of the protocol's client step |
| `WebSocketService.WebSocketClient.Unsubscribe` | frontend/src/app/services/websocket.ts:179-184 | Likewise, and the channel is no longer pending |
| `WebSocketService.WebSocketClient.RestoreCounted` | frontend/src/app/services/websocket.ts:85-90 | Sends one subscribe per counted channel, in the map's order, and records each in the list |
| `WebSocketService.WebSocketClient.FlushPending` | frontend/src/app/services/websocket.ts:92-95 | Sends one subscribe per pending channel and empties the pending set |
| `WebSocketService.WebSocketClient.OnOpen` | frontend/src/app/services/websocket.ts:82-97 | The open handler is the protocol's open step for the visited orders |
| `WebSocketService.WebSocketClient.OnClose` | frontend/src/app/services/websocket.ts:99-119 | A close ends the connection and stops the retries exactly when it was a rejection |
| `WebSocketService.WebSocketClient.Close` | frontend/src/app/services/websocket.ts:198-211 | An explicitly closed instance has no socket and nothing pending |
| `WebSocketService.Module.ConnectWebSocket` | frontend/src/app/services/websocket.ts:232-244 | Reuses the very instance of the same token, otherwise replaces it by a fresh one with the new token, and keeps the counts |
| `WebSocketService.Module.DisconnectWebSocket` | frontend/src/app/services/websocket.ts:250-255 | Drops the instance and keeps the counts |
| `WebSocketService.Module.SubscribeChannel` | frontend/src/app/services/websocket.ts:259-268 | Raises the count of the channel by one and asks the instance only for the first subscriber |
| `WebSocketService.Module.UnsubscribeChannel` | frontend/src/app/services/websocket.ts:270-279 | Lowers a count above one and sends nothing; the last subscriber, and a channel never counted, drop the entry and tell the instance |
| `WebSocketService.Module.ResetChannelRefs` | frontend/src/app/services/websocket.ts:282-284 | Forgets every count |
| `WebSocketService.Module.LifecycleCleanup` | frontend/src/hooks/useWebSocket.ts:37-43 | Token change: disconnects, clears the list and keeps the counts |
| `WebSocketService.Module.LifecycleLogout` | frontend/src/hooks/useWebSocket.ts:27-32 | Logout: instance, counts and list are all gone |
| `ChannelAuth.SubscribedIsMembership` | backend/internal/websocket/hub.go:39-58 | Over authorized channels, none of which holds a star, the prefix-matching test is plain membership |
| `ChannelAuth.PodLogChannelAccepted` | backend/internal/websocket/channel_auth.go:22-35 | A printed pod-log channel is accepted if and only if its three names are non-empty and free of colons and stars and the tree covers that very cluster and namespace |
| `ChannelAuth.PodLogParts` | backend/internal/websocket/channel_auth.go:22-27 | A printed channel splits into four parts exactly when its names hold no colon |
| `ChannelAuth.AcceptedChannels` | backend/internal/websocket/channel_auth.go:10-39 | All channels there are: a connection may subscribe to the progress channel, the event channel, or the printed channel of a pod it may read, each under its own permission, and to nothing else |
| `ChannelAuth.ProgressIsExact` | backend/internal/websocket/channel_auth.go:41-59 | A progress event may be seen if and only if the tree has the permission and scope on every namespace that the event may be about |
| `HubProtocol.CloseOnce` | backend/internal/websocket/hub.go:234-270 | In every order of register, unregister, broadcast and stop no queue is closed twice or written after its close, and a closed client is neither in the map nor in the register queue |
| `HubProtocol.ReplyFaultIsExact` | backend/internal/websocket/hub.go:170-176 | On every run a reply of a read pump meets a closed queue if and only if the pump still reads although the stop case closed its client; closing by unregistration never causes it |
| `HubProtocol.StopThenReplyFaults` | backend/internal/websocket/hub.go:237-245 | The stop case does cause it for every registered client whose pump still reads |
| `HubProtocol.SubscribedIsMembershipOnRuns` | backend/internal/websocket/hub.go:39-75 | On every run every recorded channel is authorized for its client, and subscribed means membership |
| `HubProtocol.PodLogsStayInScope` | backend/internal/websocket/pod_logs.go:172-174 | A broadcast on the printed channel of (c, n, p) is queued only for clients with scope on (c, n) |
| `HubProtocol.ProgressStaysInScope` | backend/internal/websocket/channel_auth.go:41-59 | A progress event is queued only for clients that may see its cluster and namespace |
| `HubProtocol.BroadcastReaches` | backend/internal/websocket/hub.go:197-214 | Each registered subscriber that may see the event and has room gets exactly this one message, everyone else nothing |
| `HubProtocol.OneLife` | backend/internal/websocket/hub.go:234-258 | On every run a client is in the map exactly when the loop took its arrival and has not dismissed it, and its queue is closed exactly when it was dismissed |
| `HubProtocol.RegistrationsDrain` | backend/internal/websocket/hub.go:246-250 | In as many turns as clients wait, the loop registers all of them |
| `HubProtocol.DeparturesDrain` | backend/internal/websocket/hub.go:251-258 | In as many turns as clients left, the loop takes them out of the map and closes those, and only those, that were in it |
| `HubProtocol.LoopBroadcastReaches` | backend/internal/websocket/hub.go:259-267 | Every registered client with room gets exactly the first waiting payload, everyone else nothing |
| `HubProtocol.ActionIsExact` | backend/internal/websocket/handler.go:156-167 | After an action a channel is recorded exactly when it was, minus what is unsubscribed, plus what is subscribed and authorized, and no other client changes |
| `HubProtocol.StepKeepsInv` | backend/internal/websocket/hub.go:145-166 | Every call, loop turn and pump keeps the hub's invariant |
| `Hub.Client.IsSubscribed` | backend/internal/websocket/hub.go:39-58 | The search loop decides the exact or starred-prefix match |
| `Hub.Client.HandleAction` | backend/internal/websocket/handler.go:156-167 | One read turn changes the channel set as the filtered action says |
| `Hub.OfferToAudience` | backend/internal/websocket/hub.go:200-213 | Each client that hears the channel is offered the message once; the others are untouched |
| `Hub.Hub.Connect` | backend/internal/websocket/hub.go:145-151 | A fresh client enters the register queue if there is room |
| `Hub.Hub.HandleAction` | backend/internal/websocket/handler.go:140-168 | One read turn of one client is the action step of the hub |
| `Hub.Hub.WriteNext` | backend/internal/websocket/handler.go:205-215 | The write pump sends the oldest queued message and leaves the rest in order |
| `Hub.Hub.Unregister` | backend/internal/websocket/handler.go:129-132 | The end of a read pump: it no longer reads, and the client enters the unregister queue if there is room |
| `Hub.Hub.SendToClient` | backend/internal/websocket/hub.go:170-176 | A pong or error is queued if there is room; it meets a closed queue only for a client that the stop case closed |
| `Hub.Hub.Broadcast` | backend/internal/websocket/hub.go:162-167 | The payload enters the broadcast queue if there is room |
| `Hub.Hub.BroadcastToChannel` | backend/internal/websocket/hub.go:197-231 | Offers the message to the audience and keeps the hub's invariant |
| `Hub.Hub.LoopStop` | backend/internal/websocket/hub.go:237-245 | Every registered client is closed once and the map is empty |
| `Hub.Hub.LoopRegister` | backend/internal/websocket/hub.go:246-250 | The first waiting client joins the map |
| `Hub.Hub.LoopUnregister` | backend/internal/websocket/hub.go:251-258 | A client in the map leaves it and is closed; a client not in the map is left alone |
| `Hub.Hub.LoopBroadcast` | backend/internal/websocket/hub.go:259-267 | Every registered client is offered the payload |
| `BackupTasks.ExecutorStartsAtMostOnce` | backend/internal/worker/backup_worker.go:198-211 | For any workers, redeliveries, auto-claims and crashes, the executor of a task is entered at most once and never by two workers |
| `BackupTasks.AckedTaskIsNotPending` | backend/internal/worker/backup_worker.go:116-127 | No acknowledged message names a task whose row is still pending |
| `BackupTasks.PendingRowIsCarried` | backend/internal/backup/manager.go:183-206 | Every pending row has a message not yet acknowledged, or a submission that is not finished |
| `BackupTasks.SuccessHasPathAndCount` | backend/internal/worker/backup_worker.go:427-435 | On every run a success row has a non-empty storage path and counts at least one object |
| `BackupRecords.SuccessRecordsTheResult` | backend/internal/worker/backup_worker.go:427-435 | On every run a success row of a backup holds the key of its object and the count one, or the prefix of its batch and the count of its objects, under its own cluster and task id |
| `BackupRecords.ExecutorHasResult` | backend/internal/worker/backup_worker.go:633-641 | On every run a claimed task has a result unless it is a batch that found nothing; a restore is never refused for its path, which is always that of a single object |
| `BackupProgress.PendingTaskCanRun` | backend/internal/worker/backup_worker.go:168-254 | From any moment of any run, an idle worker can take an unacknowledged message of a pending row and enter its executor, and then make the row a success and acknowledge the message |
| `BackupProgress.SubmissionCanFinish` | backend/internal/backup/manager.go:183-206 | An unfinished submission that is not giving up can hand its pending row over to the stream |
| `BackupProgress.PendingRowCanSettle` | backend/internal/worker/backup_worker.go:116-166 | From any moment of any run with an idle worker, every pending row can still become a success, or a failure if its submission is giving up |
| `BackupProgress.RunningRowIsExact` | backend/internal/worker/backup_worker.go:193-211 | A running row can still become a success or a failure if and only if some worker is executing its task or about to record its failure |
| `BackupProgress.CrashLeavesRunning` | backend/internal/worker/backup_worker.go:193-196 | After a crash of its worker no continuation moves the row from running |
| `BackupProgress.AckedIsFinal` | backend/internal/worker/backup_worker.go:116-127 | An acknowledged message that nobody is working on is never handled again |
| `BackupTasks.StatusMovesForward` | backend/internal/worker/backup_worker.go:193-254 | Over any stretch of any run a row moves only pending to running to success or failed, or pending to failed; a success row never changes; kind and cluster never change |
| `BackupTasks.StepMoves` | backend/internal/backup/manager.go:528-536 | Each single step moves each row along one edge of that order, although the failure write has no status condition |
| `BackupTasks.StepKeepsInv` | backend/internal/worker/backup_worker.go:136-166 | Every step of a submitter or worker, and every crash, keeps the protocol's invariant |
| `BackupTasks.ClaimKeepsInv` | backend/internal/worker/backup_worker.go:198-211 | The compare-and-set keeps the invariant, in particular one executor per task |
| `BackupTasks.EnqueueKeepsInv` | backend/internal/backup/manager.go:511-526 | Adding the message hands the pending row over from its submission to the stream |
| `BackupTasks.ResultHasPath` | backend/internal/worker/backup_worker.go:604-619 | Whatever an executor that succeeds writes has a path and a count |
| `TaskStore.TaskStore.CreateBackup` | backend/internal/backup/manager.go:172-185 | The new row is pending under the next id, owned by its submission, and no other row changes |
| `TaskStore.TaskStore.CreateRestore` | backend/internal/backup/manager.go:223-268 | Exactly an existing, successful, non-batch source yields a restore row, pending under the next id with the storage path of the source |
| `TaskStore.TaskStore.PushTaskToStream` | backend/internal/backup/manager.go:511-526 | Adds one message with the task's id and type, or fails and adds none |
| `TaskStore.TaskStore.SetTaskError` | backend/internal/backup/manager.go:528-536 | The row of the failed submission, if it exists, becomes failed |
| `TaskStore.TaskStore.LoadTask` | backend/internal/worker/backup_worker.go:168-196 | Returns a task exactly when the lookup works and the message names a pending row; otherwise ends in an acknowledgement for a dropped or settled task, or, exactly when the lookup of a named task fails, in an error that leaves the message alone |
| `TaskStore.TaskStore.ClaimTask` | backend/internal/worker/backup_worker.go:198-211 | One row is affected exactly when the write works and the row is still pending, which is exactly when this worker goes on to run the executor |
| `TaskStore.TaskStore.FinishTask` | backend/internal/worker/backup_worker.go:427-439 | With a result and a successful write the row holds that result and the message may be acknowledged; without either an error is returned and nothing has changed |
| `TaskStore.TaskStore.Execute` | backend/internal/worker/backup_worker.go:223-254 | The executor's outcome settles the row as success or, when the failure write succeeds, as failed; an executor without a result is an error |
| `TaskStore.TaskStore.HandleTask` | backend/internal/worker/backup_worker.go:183-255 | Against any interference by the other actors the handler is a run of protocol steps that acknowledges nothing, and returns nil exactly when its message may be acknowledged; alone, with its calls working, it makes a pending row a success exactly when the executor has a result and stores it |
| `TaskStore.TaskStore.Process` | backend/internal/worker/backup_worker.go:116-127 | One turn of the consumer or auto-claim loop acknowledges after nil and never after an error |
| `TaskStore.TaskStore.AbortExecutor` | backend/internal/worker/backup_worker.go:589-599 | A failing executor may or may not have marked its row already |
| `TaskStore.TaskStore.MarkTaskFailed` | backend/internal/worker/backup_worker.go:238-250 | The row becomes failed if the write succeeds, whose own error is ignored, and nothing is acknowledged |
| `TaskStore.TaskStore.AckMessage` | backend/internal/worker/backup_worker.go:122-124 | Acknowledges only after a handler that returned no error |
| `BatchBackup.PayloadRoundTrip` | backend/internal/backup/manager.go:467-480 | A list of names reads back as written if and only if no name holds a comma and the list is not the one empty name |
| `BatchBackup.PlanNamespace` | backend/internal/worker/backup_worker.go:513-537 | The inner loop lists every known kind once, in some order, counts failed listings and skips unnamed objects |
| `BatchBackup.Plan` | backend/internal/worker/backup_worker.go:510-539 | The nested loops yield the plan and the failures of the visited orders: exactly the objects that were listed, and the number of listings that failed |
| `BatchBackup.PlanOrderIrrelevant` | backend/internal/worker/backup_worker.go:510-539 | The planned multiset of (namespace, kind, name) and the number of failures are the same for all map orders |
| `BatchBackup.UploadPlan` | backend/internal/worker/backup_worker.go:552-587 | At loop end done plus failed equals planned plus failed listings, size is the sum over uploaded objects, keys and percents are those of the uploaded ones |
| `BatchBackup.FinishBatch` | backend/internal/worker/backup_worker.go:589-619 | Fails when nothing was uploaded; otherwise records count, size and the prefix of the last stored path |
| `BatchBackup.PercentsOfTheLoop` | backend/internal/worker/backup_worker.go:583-586 | In rounded floating point the loop's percents never decrease, stay within 15 to 95, and reach 95 when every object was uploaded; up to 2^50 objects, only then |
| `BatchBackup.PercentLaws` | backend/internal/worker/backup_worker.go:584 | One rounded percent lies in 15 to 95, grows with the count, and is 95 at the end; up to 2^50 objects, only there |
| `BatchBackup.BatchKeysShareTheStoredPrefix` | backend/internal/worker/backup_worker.go:572-607 | For any cluster code the uploaded keys of a task are pairwise distinct and yield one stored prefix, which begins them if and only if the code has no backslash, and which is its own prefix |
| `BatchBackup.PlanIsWhatWasListed` | backend/internal/worker/backup_worker.go:510-539 | An object is planned if and only if its namespace and a known kind of the filter were asked for, that listing succeeded and holds it, and it has a name |
| `BatchBackup.FailuresAreCounted` | backend/internal/worker/backup_worker.go:524-528 | Every failed listing is counted once |
| `BatchBackup.UploadsAddUp` | backend/internal/worker/backup_worker.go:579-582 | Count and size of the uploads of two stretches add up, and one upload counts one with its size |
| `BatchBackup.BackupNamespaces` | backend/internal/worker/backup_worker.go:449-620 | From the two lists to the result, whatever listings and uploads return: exactly the listed objects are planned, the stored ones have distinct keys, as many as the result counts, their sizes add up to its size, and its storage path is their common prefix |
| `ObjectKeys.Sanitize` | backend/internal/plugins/storage/local.go:139-153 | The byte loop replaces exactly the characters outside the allowed set, one by one, and names the empty result |
| `ObjectKeys.PrefixIsIdempotent` | backend/internal/backup/manager.go:495-509 | Taking the batch prefix twice changes nothing, whatever the path |
| `ObjectKeys.PrefixOfBatchKey` | backend/internal/backup/manager.go:495-509 | The prefix of any key of a batch is the code with its backslashes turned, the date and the task id with a dash |
| `ObjectKeys.BatchKeysDistinct` | backend/internal/worker/backup_worker.go:572-573 | Two positions of one batch never share a key, whatever the objects are called |
| `ObjectKeys.KeysAreExact` | backend/internal/plugins/storage/local.go:135-137 | Two keys are equal if and only if cluster, date, backup id and kind are, and the names up to replaced characters |
| `ObjectKeys.DifferentObjectsDifferentKeys` | backend/internal/worker/backup_worker.go:572-573 | For names as Kubernetes gives them, two batch keys or two single keys are equal exactly for the same cluster, day, task, position, kind and name, and a batch key is never a single one |
| `ObjectKeys.PrefixSelectsItsBatch` | backend/internal/plugins/storage/local.go:112-118 | For any two cluster codes a batch key starts with a stored prefix if and only if code, date and task id agree or the key's code holds the whole prefix |
| `ObjectKeys.PrefixSelectsNoSingle` | backend/internal/plugins/storage/local.go:112-118 | A single-object key starts with a batch prefix if and only if its code holds the whole prefix, never because of its own id |
| `ObjectKeys.MixingIsExact` | backend/internal/plugins/storage/local.go:112-118 | Some object of another task under a code is selected by a prefix if and only if that code holds the whole prefix |
| `ObjectKeys.SlashFreeCodesNeverMix` | backend/internal/plugins/storage/local.go:112-118 | Slash-free codes never hold a prefix |
| `LocalStore.LocalStorage.Upload` | backend/internal/plugins/storage/local.go:40-67 | Accepts exactly the keys other than ".." whose climb out of the base is named again, and writes the one file they name, inside the base; otherwise nothing changes |
| `LocalStore.LocalStorage.Download` | backend/internal/plugins/storage/local.go:69-81 | Reads the file that a relative key names below the base by segments, or the absolute path given |
| `LocalStore.LocalStorage.UploadThenDownload` | backend/internal/plugins/storage/local.go:40-81 | What is uploaded under an accepted key is downloaded again, and no other file changes, unless the key is absolute and the base is not the root |
| `LocalStore.LocalStorage.Delete` | backend/internal/plugins/storage/local.go:83-94 | Removes that one file and accepts its absence |
| `LocalStore.LocalStorage.List` | backend/internal/plugins/storage/local.go:96-133 | Lists exactly the files below the base whose relative path starts with the prefix |
| `LocalStore.LocalStorage.DeleteStorageObjects` | backend/internal/backup/manager.go:379-416 | Removes exactly the files under the batch prefix, or the one stored path when there are none or it is no batch |
| `LocalStore.PrefixSelectsObject` | backend/internal/plugins/storage/local.go:96-133 | For every base and every uploaded object under any cluster code, a listed file matches a prefix exactly when it belongs to that batch or its listed code holds the prefix |
| `LocalStore.PrefixSelectsTheTask` | backend/internal/backup/manager.go:389-405 | Deleting by prefix removes exactly the files of the batch and those of objects whose listed code holds the prefix, two disjoint sets |
| `LocalStore.PrefixSelectsExactlyTheTask` | backend/internal/backup/manager.go:389-405 | It removes exactly the objects of its task if and only if no object's listed code holds the prefix |
| `LocalStore.SlashFreeObjectsStayApart` | backend/internal/backup/manager.go:389-405 | With a slash-free code that never happens |
| `LocalStore.KeyNamesPath` | backend/internal/plugins/storage/local.go:40-48 | An object's key names the folder of its code, its date and its file, and is accepted exactly when that place is inside the base |
| `LocalStore.PrefixFindsItsObject` | backend/internal/plugins/storage/local.go:107-118 | For every base, cluster code and object: the object is uploaded and found under the prefix of its stored path if and only if the code consists of ordinary names and holds no backslash |
| `Paths.SafeJoinIsExact` | backend/internal/plugins/storage/nfs.go:110-132 | The key whose cleaned text is ".." is rejected by the first test; any other is accepted exactly when the file it names is the base or below it, and otherwise rejected by the second test |
| `Paths.FirstTestIsDotDot` | backend/internal/plugins/storage/nfs.go:115-117 | The first test sees only the text "..": its second half compares two bytes with three |
| `Paths.JoinedStaysInside` | backend/internal/plugins/storage/nfs.go:128-131 | Every accepted path is the base itself or lies below it |
| `Paths.AcceptedKeys` | backend/internal/plugins/storage/nfs.go:110-132 | A key is accepted if and only if it is not ".." and names again, in order, the directories of the base it climbed over; a key that does not climb always is |
| `Paths.ClimbingKeys` | backend/internal/plugins/storage/nfs.go:110-132 | Under base /b the key ../b/x is accepted as /b/x and the key ../x meets the second test |
| `Paths.LocalPathIsExact` | backend/internal/plugins/storage/local.go:69-90 | Every relative key, climbing or not, opens the file it names from the base; an absolute key opens itself |
| `Paths.UploadAndDownloadAgree` | backend/internal/plugins/storage/local.go:40-81 | For every key that upload accepts, climbing ones included, download reads the uploaded file if and only if the key is relative or the base is the root directory |
| `Restore.UniqueRestoredName` | backend/internal/worker/restore_apply.go:24-36 | Returns the first candidate not reported to exist, or the clock's name when all 99 are reported |
| `Restore.CandidatesDiffer` | backend/internal/worker/restore_apply.go:29-31 | The candidates are pairwise different names |
| `Restore.CandidatesRead` | backend/internal/worker/restore_apply.go:25-29 | The candidates read as the base name and the base name with a dash and the numbers 2 to 99 |
| `Restore.FirstFreeIsUnique` | backend/internal/worker/restore_apply.go:24-36 | The chosen name is determined by the answers, and a reported name is chosen only as the clock's |
| `Restore.Unstructured.StripForCreate` | backend/internal/worker/restore_apply.go:15-22 | Removes exactly the five server fields and the status |
| `Restore.Cluster.ApplyRestoredObject` | backend/internal/worker/restore_apply.go:72-91 | Create-new never changes an existing object whatever the lookups answer; overwrite succeeds exactly when the object named is still there in the version looked up, and changes only it; a failure changes nothing |
| `Restore.TruthfulProbesFindAFreeName` | backend/internal/worker/restore_apply.go:24-36 | With truthful lookups and a free candidate the chosen name is free and not later than that candidate |
| `ClusterCache.StaleImpliesPendingWriter` | backend/internal/cluster/manager.go:343-349 | On every run of getters, updaters, deleters and imports, a cached client that disagrees with its row has a writer between its write and its invalidation |
| `ClusterCache.QuiescentIsCoherent` | backend/internal/cluster/manager.go:376-414 | With no such writer the whole cache agrees with the table |
| `ClusterCache.CompletedWritesAreSeen` | backend/internal/cluster/manager.go:410-414 | After an update or delete has returned, no later state caches a client older than it |
| `ClusterCache.UpdateThenGet` | backend/internal/cluster/manager.go:343-408 | From any moment of any run with a free lock, an update followed by a get leaves exactly the new kubeconfig in table and cache, and no other cluster touched |
| `ClusterCache.DeleteEndsInBoth` | backend/internal/cluster/manager.go:359-374 | And a deletion leaves the cluster in neither |
| `ClusterCache.LockIsExclusive` | backend/internal/cluster/manager.go:388-389 | At most one call is inside the exclusive section |
| `ClusterCache.StaleWindowExists` | backend/internal/cluster/manager.go:395-406 | A getter that read before an update and stores after it does leave the old client, so the pending writer cannot be dropped from the statement |
| `ClusterCache.StepKeepsInv` | backend/internal/cluster/manager.go:376-414 | Every database access, lock operation and map access keeps the cache invariant |
| `ClusterManager.Manager.GetDynamicClient` | backend/internal/cluster/manager.go:376-408 | Against any interference: when a client is returned, that it is cached, current or covered by a pending writer, and not older than writes completed before the call |
| `ClusterManager.Manager.Update` | backend/internal/cluster/manager.go:282-357 | Succeeds exactly when the row was there, the checks passed, the write succeeded and the reload finds a row; without interference the row then holds the new kubeconfig; after a kubeconfig write, even with a failed reload, the write counts as completed and no cached client is older |
| `ClusterManager.Manager.Delete` | backend/internal/cluster/manager.go:359-374 | True exactly when a row was deleted, and then its client is gone and, without interference, nothing else has changed; otherwise nothing changed |
| `ClusterManager.Manager.ImportCluster` | backend/internal/cluster/manager.go:56-110 | Creates the row of an unused code exactly when the checks, the encryption and the insert succeed, and never touches the cache |
| `ClusterManager.Manager.InvalidateClient` | backend/internal/cluster/manager.go:410-414 | After any wait for the lock the entry is gone and the write is completed |
| `ClusterManager.Manager.LoadUnderLock` | backend/internal/cluster/manager.go:391-407 | Under the lock a client results exactly when it is cached or row, decryption and construction succeed, and it is the cached one |
| `Envelope.AESGCM.Encrypt` | backend/pkg/crypto/aesgcm.go:53-76 | The filled buffer is the version byte, the nonce and the sealed text |
| `Envelope.AESGCM.Decrypt` | backend/pkg/crypto/aesgcm.go:79-114 | The key loop returns the plain text of the first key that opens, or the error for length, version or all keys |
| `Envelope.ZeroBuffer` | backend/pkg/crypto/aesgcm.go:120-124 | Every byte is zero afterwards |
| `Envelope.RoundTrip` | backend/pkg/crypto/aesgcm.go:53-114 | What was sealed under a key opens to itself if and only if that key is the current or the previous one, and otherwise all keys fail |
| `Envelope.OnlySealedTextsOpen` | backend/pkg/crypto/aesgcm.go:100-113 | Whatever decrypts is the framed sealing of the result under one of the two keys and the same associated data |
| `Envelope.TableIsAsExpected` | backend/internal/cluster/manager.go:84-110 | On every run the encrypted table has a row exactly where the table of plain texts has one, with the same text and key |
| `Envelope.StoredKubeconfigDecrypts` | backend/internal/cluster/manager.go:326-345 | In every run of imports, updates, deletions and key rotations the stored kubeconfigs are exactly those that the list of steps calls for, and each decrypts under the associated data of its own row to its text, exactly while its key is current or previous |
| `Envelope.SharedAadIsExact` | backend/internal/cluster/manager.go:84 | Two rows share associated data if and only if they are the same, or one code continues the other by leading digits of the other's creator id |
| `VersionHistory.LiveNumbersFormAnInterval` | backend/internal/version/manager.go:40-51 | On every run the rows of an object are numbered without a gap up to the newest and hold what the log holds |
| `VersionHistory.NumbersAreNeverReused` | backend/internal/version/manager.go:40-51 | The log of an object only grows and the next number never falls, pruned rows notwithstanding |
| `VersionHistory.ListIsNewestOfLog` | backend/internal/version/manager.go:232-242 | The listing is the newest entries of the log, newest first, as many as the limit and the kept rows allow, and exactly min(M, newest) while the limit has not been raised |
| `VersionHistory.GetVersionIsLogEntry` | backend/internal/version/manager.go:261-274 | A lookup gives the log's entry of that number if its row is kept, and nothing otherwise |
| `VersionHistory.AfterLeavesTheNewest` | backend/internal/version/manager.go:199-208 | After a snapshot with pruning exactly min(M, newest) rows remain |
| `VersionHistory.OfWithout` | backend/internal/version/manager.go:200-204 | Pruning one object deletes no row of another |
| `VersionHistory.KeysAreExact` | backend/internal/version/manager.go:69-79 | Two names share a history if and only if cluster, version, kind and name agree and either the kind is cluster-scoped or the namespaces agree |
| `VersionHistory.HistoriesStayApart` | backend/internal/version/manager.go:65-213 | Over any stretch of any run with no step about an object, its listing, lookups, next number, log and present object stay as they were, whatever is saved, pruned or rolled back under the same name in other namespaces |
| `VersionHistory.StepExtendsLog` | backend/internal/version/manager.go:351-377 | Every operation, rollback included, only adds to the end of a log, at most two entries |
| `VersionHistory.RollbackAppendsTwo` | backend/internal/version/manager.go:351-377 | A rollback appends exactly the replaced and the restored state to its own log, changes only its object, and leaves every other log alone |
| `VersionHistory.SavedStateSurvives` | backend/internal/version/manager.go:361-372 | The replaced state is found under its number if and only if at least two versions are kept |
| `VersionHistory.SecondRollbackRestores` | backend/internal/version/manager.go:351-377 | With at least two versions kept, rolling back to the saved state restores the cluster's objects |
| `VersionHistory.RollbackBringsBack` | backend/internal/version/manager.go:351-377 | A removed object is brought back by a rollback to any kept version, which appends the restored state only |
| `VersionHistory.StepKeepsInv` | backend/internal/version/manager.go:65-213 | Snapshots, pruning that may fail, rollbacks and limit changes keep the table a window of the log |
| `VersionManager.Manager.NextVersionSeq` | backend/internal/version/manager.go:40-51 | One more than the largest kept number is one more than the whole history |
| `VersionManager.Manager.SnapshotBefore` | backend/internal/version/manager.go:65-134 | Appends the present object under the next number, or returns zero without one, or fails and changes nothing; no other object's history is touched |
| `VersionManager.Manager.SnapshotAfter` | backend/internal/version/manager.go:137-213 | Succeeds exactly when cluster and version are valid and the transaction commits, and then appends the given object and leaves as many rows as the limit allows; no other object's history is touched |
| `VersionManager.Manager.ListVersions` | backend/internal/version/manager.go:216-242 | The items are the newest entries of the log, numbered downwards |
| `VersionManager.Manager.GetVersion` | backend/internal/version/manager.go:245-274 | The found object is the log's entry and is the object asked for; not found exactly when the row is not kept |
| `VersionManager.Manager.Rollback` | backend/internal/version/manager.go:351-377 | The object is replaced by the snapshot exactly when it is found and the calls before succeed; otherwise an error is returned and no object changed; no other object's history is touched |
| `VersionManager.Manager.SetMaxVersions` | backend/internal/version/manager.go:34-38 | Only a positive limit is taken over |
| `TokenRotation.AcceptsExactlyTheLive` | backend/internal/auth/service.go:430-453 | On every run a check whose Redis read works accepts exactly the issued, unexpired tokens that no logout and no refresh in the list of steps has revoked |
| `TokenRotation.RevokedForEver` | backend/internal/auth/service.go:438-453 | A token once revoked is never accepted again by such a check |
| `TokenRotation.RevokedIsExact` | backend/internal/auth/service.go:438-465 | On every run the revoked tokens are exactly those named by an effective logout, as its access or its refresh token, and those redeemed by a refresh |
| `TokenRotation.LogoutEndsBoth` | backend/internal/auth/service.go:455-465 | After a logout whose writes succeed no continuation accepts the access token or the refresh token that came with it |
| `TokenRotation.LogoutIsExact` | backend/internal/auth/service.go:455-465 | A logout takes away exactly the tokens it revokes: an access token handed in as the refresh token, and every other token, is accepted as before |
| `TokenRotation.RotationIsSafe` | backend/internal/auth/service.go:288-335 | While refreshes of one token do not overlap and Redis answers, each refresh token is redeemed at most once and each login has at most one usable refresh token |
| `TokenRotation.RotationIsExact` | backend/internal/auth/service.go:288-335 | On every run that leaves no refresh unfinished, while Redis answers, each refresh token is redeemed at most once if and only if no two refreshes of one token overlapped |
| `TokenRotation.OverlapRedeemsTwice` | backend/internal/auth/service.go:296-321 | Wherever in a run a refresh begins while another of the same token is under way, and whatever happens until both have ended, the token is redeemed at least twice |
| `TokenRotation.OverlapLeavesTwoUsable` | backend/internal/auth/service.go:296-321 | If both end at once, the login is left with two usable refresh tokens |
| `TokenRotation.RunKeepsRotation` | backend/internal/auth/service.go:288-335 | The rotation invariant on every such run |
| `AuthService.Service.IssueTokenPair` | backend/internal/auth/jwt.go:42-52 | Two new ids, with the two lifetimes, of the given family |
| `AuthService.Service.Login` | backend/internal/auth/service.go:270-274 | The pair belongs to a family no earlier token has |
| `AuthService.Service.IsRevoked` | backend/internal/auth/service.go:430-436 | For a live token and a working read the answer is whether it was revoked |
| `AuthService.Service.RevokeClaims` | backend/internal/auth/service.go:438-453 | The deny entry of a live token expires exactly when the token does; an expired token gets none |
| `AuthService.Service.CheckRefresh` | backend/internal/auth/service.go:289-307 | Passes exactly an accepted refresh token of an enabled user |
| `AuthService.Service.Rotate` | backend/internal/auth/service.go:309-321 | Issues two new tokens of the same family with their lifetimes and denies the old token, and only it |
| `AuthService.Service.Refresh` | backend/internal/auth/service.go:288-335 | Without interference: a pair exactly for an accepted token, which is not accepted afterwards; both tokens of the pair are, and every other token as before |
| `AuthService.Service.Logout` | backend/internal/auth/service.go:455-465 | Neither the access token nor a refresh token that was handed in and parses is accepted any more; every other token is accepted as before |
| `BrowserRefresh.OneRefreshAndOneRetry` | frontend/src/app/services/request.ts:130-156 | On every run at most one refresh POST is awaited and each logical request is sent at most twice |
| `BrowserRefresh.RefusedRequestsShareTheRefresh` | frontend/src/app/services/request.ts:130-156 | On every run a plain request refused for the first time waits if and only if a refresh is under way or a refresh token is stored; any other answer is final, and no other request changes |
| `BrowserRefresh.OnePostPerRefresh` | frontend/src/app/services/request.ts:44-50 | And a POST is sent for it exactly when none was under way, with the stored refresh token |
| `BrowserRefresh.NobodyWaitsForNothing` | frontend/src/app/services/request.ts:137-143 | On every run, while a request waits, a refresh is awaited |
| `BrowserRefresh.DeliveryResumesEveryone` | frontend/src/app/services/request.ts:143-148 | On every run a token that comes back is stored as access and refresh token and puts every waiting request back in the air, retried, for its second sending |
| `BrowserRefresh.RefreshServesEveryone` | frontend/src/app/services/request.ts:44-67 | The whole refresh: if the token presented is live, then after the server's answer the browser holds the new token, the only live one of the login, and every waiting request is in the air again |
| `BrowserRefresh.RefusedExactly` | backend/internal/auth/service.go:288-307 | The server refuses exactly a token that is not live or a user who is not enabled |
| `BrowserRefresh.LogInStoresThePair` | backend/internal/auth/service.go:270-274 | A login stores its pair, and its refresh token is live and the only one of a new family |
| `BrowserRefresh.LogOutEndsTheLogin` | backend/internal/auth/service.go:455-465 | A logout forgets both tokens and ends the stored login on the server |
| `BrowserRefresh.DeadForEver` | backend/internal/auth/service.go:438-453 | A refresh token that expired or was replaced never comes to life again |
| `BrowserRefresh.RefreshPresentsTheOnlyLiveToken` | frontend/src/app/services/request.ts:44-67 | A refresh under way presents its login's newest token: no other of the family is live, and it is, unless it expired or was logged out, also when responses get lost and the page is reloaded at harmless moments |
| `BrowserRefresh.FailedRefreshLogsOut` | frontend/src/app/services/request.ts:143-155 | A refresh that fails or is lost leaves no token in the browser, and finishes every request that waited, without a retry |
| `BrowserRefresh.ReloadIsExact` | frontend/src/app/services/request.ts:44-56 | After a reload some continuation presents a spent token if and only if the refresh that was under way concerns the stored login and the server has rotated its token or still would |
| `BrowserRefresh.LogoutIsExact` | frontend/src/layouts/BasicLayout.tsx:128-139 | After a logout some continuation without a login stores a token again if and only if a refresh was under way that the server had already answered with one, or whose token is live and not the one logged out |
| `BrowserRefresh.StepKeepsInv` | frontend/src/app/services/request.ts:130-156 | Every browser, network and server step, and every harmless reload, keeps the joint invariant |
| `RequestModule.RequestModule.OnResponseError` | frontend/src/app/services/request.ts:130-156 | A plain request refused for the first time ends waiting exactly when a refresh is under way or a token is stored, and starts a POST exactly in the second case; any other ends, and only a final refusal outside the login paths drops the tokens |
| `RequestModule.RequestModule.SettleRefresh` | frontend/src/app/services/request.ts:137-148 | Stores the tokens, clears the shared promise and resumes every waiter, in whatever order: retried and in the air with a token, finished without |
| `RequestModule.RequestModule.HandleError` | frontend/src/app/services/request.ts:71-90 | A final 401 logs out except on the login and refresh paths |
| `Permissions.QueryPerm` | backend/internal/auth/service.go:30-50 | The loop grants a point exactly to a platform administrator or when one granted code covers it: the platform wildcard, the point itself, or the wildcard of its module |
| `Permissions.QueryClusterScope` | backend/internal/auth/service.go:62-79 | Decides whole-cluster scope |
| `Permissions.QueryAnyAccess` | backend/internal/auth/service.go:81-96 | Decides whether anything of the cluster is accessible |
| `Permissions.QueryNamespaceScope` | backend/internal/auth/service.go:98-126 | Decides scope on one namespace |
| `Permissions.AllowedNamespaces` | backend/internal/auth/service.go:161-183 | Full exactly for whole-cluster scope, otherwise the granted namespaces |
| `Permissions.ScopeQueriesAgree` | backend/internal/auth/service.go:62-183 | For every tree: whole scope iff the list is full, a namespace iff full or listed, any access iff full or the list is not empty |
| `Permissions.WholeIsEveryNamespace` | backend/internal/auth/service.go:62-126 | Whole-cluster scope is the same as scope on every namespace |
| `Permissions.AllowedClusters` | backend/internal/auth/service.go:128-159 | Full for the platform, otherwise exactly the non-empty accessible codes, each once |
| `Permissions.LoadPermissionTree` | backend/internal/auth/service.go:382-399 | The row fold keeps the codes and the first row of every scope key, and the tree then answers exactly what its rows grant |
| `Permissions.LoadedScopesAreTheRowScopes` | backend/internal/auth/service.go:382-399 | While no cluster code in the rows extends another by a bar, the loaded scopes are the row scopes as a set, each once |
| `Permissions.LoaderIsExact` | backend/internal/auth/service.go:382-399 | For a set of cluster codes the loader keeps the row scopes of all rows over them if and only if none of them extends another by a bar |
| `Permissions.LoadedTreeMeansItsRows` | backend/internal/auth/service.go:30-50 | A loaded tree grants a point if and only if one of its rows does, and a namespace likewise while the loader keeps the row scopes |
| `Permissions.CollisionIsExact` | backend/internal/auth/service.go:387 | Two different codes share a key, for some type and namespaces, if and only if one extends the other by a bar |
| `RoleSeed.BindCodes` | backend/internal/models/seed.go:137-159 | The nested loops collect the expansion of the patterns over the table |
| `RoleSeed.ExpansionPreservesMeaning` | backend/internal/models/seed.go:137-159 | For a well-formed point the expansion contains its code if and only if the permission check grants it on the patterns |
| `RoleSeed.ExpansionIsExact` | backend/internal/models/seed.go:137-159 | The two agree on a point for all patterns if and only if its action is the star, or its module is non-empty and its action does not end like a wildcard |
| `RoleSeed.BindingsMatchGrants` | backend/internal/models/seed.go:161-173 | Over a well-formed table the bindings are exactly the granted codes |

## Left out

- BackupProgress.PendingRowCanSettle: says that the row can be settled, not that a worker will get to it, which is a matter of scheduling.
- BackupTasks.StatusMovesForward: rows deleted by hand are outside it, as are restore rows sharing their source's storage path.
- BatchBackup.PercentLaws: the conversions of the two counters to floating point are taken to be exact, as they are below 2^53; above 2^50 objects the last percent may be reached early.
- LocalStore.LocalStorage.List: the order by modification time, directories and I/O errors are not modelled.
- LocalStore.PrefixSelectsTheTask: assumes that the batch finished within one date, since the prefix holds one date only.
- Envelope.StoredKubeconfigDecrypts: rests on the AEAD laws and on the keys in use not opening each other's texts; key parsing and AES itself are abstract.
- TokenRotation.RevokedForEver: the clock is discrete and shared with Redis, so the rounding of lifetimes to milliseconds is not seen; a check whose Redis read fails accepts a revoked token, as in the source.
- BrowserRefresh.RefreshPresentsTheOnlyLiveToken: one tab; several tabs share localStorage but not the single-flight promise.
- VersionHistory.SecondRollbackRestores: all calls of the two rollbacks succeed and nothing runs in between.
- ClusterManager.Manager.GetDynamicClient: the read lock is one atomic lookup taken while no writer holds the lock.
- HubProtocol.CloseOnce: speaks of broadcasts and closes; the replies of a read pump have their own statement, HubProtocol.ReplyFaultIsExact.
- SQL, soft deletion, Redis and Kubernetes wire formats, and the Redis cache of permission trees: rows and streams are maps, calls are fallible steps.
- Parameter checks of the task submissions and the choice of a storage type: one-branch code.
- The S3 store, the mount checks of the NFS store and the download of backups: no further logic over keys.
- The background percent ticker, progress messages and their stages: they interleave with the main sequence and carry no state.
- Pod-log streaming and its registry: a finishing stream removes whatever entry is under its channel, so there is no one-stream invariant to keep.
- The informer manager: its callers start no informer.
- Cross-process cache coherence: every process has its own client map.
- Connection status labels, heartbeats, timeouts, reconnect delays and the bounded message buffers of the front end.
- Helm, kubeconfig and YAML parsing, password hashing and token signatures: library code.
- Pages, routing, configuration, logging and audit formatting.
