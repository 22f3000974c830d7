# linguine: a verified model of the control plane

linguine is a small distributed control plane for language-model workers. A
router takes HTTP completions, picks a worker from its registry, sends the
request over a mesh pipe and demultiplexes the framed reply into a buffer per
request. Workers authenticate with heartbeats and learn their state from acks.
This project models those cooperating state machines and proves what holds in
every run of them: any number of sessions, workers, reconnections, losses,
failed writes and restarts, in any interleaving.

Check everything with `dafny verify dfyconfig.toml`.

## How the model is built

Code that updates state is imperative here too: classes whose methods are proved
equal to a step function on values (`Contents`, `Reg`, `View`), arrays where the
source works in place. The step functions make up the state machines; a run is a
sequence of events, every event is total, and an event that is not enabled
changes nothing. Main results quantify over all runs. Time is an integer passed to
each step. Failing database operations are placed by a budget: the number of
operations that succeed before the next one fails.

| module | models |
|---|---|
| `Wire` | envelopes and frames, with Go's integer truncations written out |
| `Jobs` | a worker's job, and the router's two response writers |
| `Streaming` | the whole mesh: sessions, pipes, jobs, losses |
| `Completion` | which events lose a frame, and that everything else arrives |
| `Registry`, `Claims`, `Catalog`, `NodeRegistry` | the node registry as values, and as the mutable object |
| `WorkerState` | the worker's connecting / registered / degraded machine |
| `Heartbeats` | enrollment tokens, the heartbeat verdict, revocation |
| `Fleet` | workers and router together over lossy FIFO pipes |
| `Splitter`, `Migrations` | the SQL script scanner and restart-safe migration |
| `AuditWriter` | the bounded asynchronous audit queue |
| `LoginLimiter`, `NonceStore`, `AdminKeys` | the admin side's small machines |
| `Seqs` | sequences: subsequences, flattening |

## Where the code and its comments differ

The model follows the code; each difference is a lemma.

- internal/router/nodes.go:134 says the id and pipe maps are kept in sync. Only one
  direction is invariant (`Registry.Inv`). From an in-sync registry an upsert keeps
  both directions exactly when the node does not move to another pipe
  (`Registry.InSyncUnlessTheNodeMoves`), so over a run the maps stay in sync exactly
  when no upsert moves a node (`Registry.InSyncExactlyWithoutMoves`); after a move,
  the stale pipe entry can retire a live node (`Registry.StalePipeRetiresALiveNode`).
- internal/auth/enrollment.go:74-77 says a revoked worker is dropped on its next
  heartbeat. The heartbeat is rejected and drops nothing
  (`Heartbeats.RejectionDropsNothing`); such a worker can still be selected up to
  staleAfter later (`Heartbeats.RevokedIsStillSelected`), and never beyond
  (`Heartbeats.RevocationBound`).
- internal/router/server.go:323 and 343 handle a closed session channel. Nothing
  closes one. A request is answered exactly when its writer took a terminal frame
  or a chunk whose flush failed (`Streaming.AnsweredExactly`). One of which nothing
  is left on the way is never answered, in any continuation, exactly when its
  dispatch was lost, its engine has not ended or its terminal frame was lost, and no
  flush failed (`Streaming.HangsExactly`); `Streaming.LostEofHangs` and
  `Streaming.LostDispatchHangs` are concrete runs.
- The catalog table follows the advertised catalog except when both the catalog
  and the cached copy are empty while older rows exist
  (`Catalog.RowsFollowTheHeartbeat`, `Catalog.EmptyCatalogLeavesOldRows`).

## Model

| member | source | states |
|---|---|---|
| `Streaming.Reachable` | internal/router/server.go:162-345 | in every reachable state of every interleaving each request's frames are taken, buffered, in flight, unsent or counted lost, in the order its job made them; frames in flight belong to known requests and their pipes; no request is dispatched twice; writers have returned exactly when their session is gone |
| `Streaming.Conservation` | internal/router/server.go:257-345 | for a request with no lost frame: bytes taken + buffered + in flight + unsent = its engine's body, in order, at every moment; a writer still at work has delivered or collected exactly the bytes taken |
| `Streaming.NonInterference` | internal/router/server.go:162-190 | whatever is lost, what a writer takes is a subsequence of whole frames of its own job, and what it delivers or collects are exactly their chunks, then the error event of a failed stream; buffers never exceed 256 frames |
| `Streaming.StatusOkMeansCompleted` | internal/router/server.go:302-345 | at most one status per request; status 200 only if that request's job has sent every frame, ending with the EOF of a cleanly ended body, that EOF is the last frame taken and nothing of the request is buffered or in flight; the client then has the body if and only if none of the request's frames was lost |
| `Streaming.AnsweredExactly` | internal/router/server.go:302-345 | in every run a request has been answered if and only if its writer took a terminal frame, or a chunk whose flush failed |
| `Streaming.HangsExactly` | internal/router/server.go:302-345 | a request of which nothing is left on the way is never answered, in any continuation, if and only if its dispatch was lost, its engine has not ended or its terminal frame was lost, and no flush failed |
| `Completion.LostExactly` | internal/router/server.go:162-345 | after any run a request has lost nothing if and only if no event of the run lost a frame of it: a failed send, a frame over 16 MiB, a loss on the pipe, a full buffer or ended session, or a writer returning with frames buffered |
| `Completion.EveryLosslessRequestCanBeServed` | internal/router/server.go:162-345 | after any run, a started request without losses whose engine has ended can be served by its job sending, the router receiving and its writer taking: status 200 and the whole body after a clean end, 502 otherwise |
| `Completion.ServedFromScratch` | internal/worker/daemon.go:300-333 | so from nothing, for every engine that ends: dispatch, start, send, receive, take |
| `Streaming.LosslessRequestsFinish` | internal/router/server.go:302-345 | in particular, without losses an ended request is answered as soon as its frames have drained |
| `Streaming.NothingClosesTheSession` | internal/router/server.go:302-324 | a request of which nothing is left on the way, started or not, stays exactly as it is in every continuation |
| `Streaming.LostEofHangs` | internal/worker/daemon.go:328-333 | an open session with nothing on the way is reached when a job's EOF fails to be sent |
| `Streaming.LostDispatchHangs` | internal/router/server.go:267-274 | and when a dispatch is lost before its job starts |
| `Streaming.Router.HandleMeshMessage` | internal/router/server.go:162-190 | the receive loop decodes the header and both layers as specified and changes only the addressed session, dropping when its buffer is full |
| `Streaming.ReceiveIsHandleMeshMessage` | internal/router/server.go:179-189 | the machine's receive step does to the sessions exactly what that method does |
| `Jobs.HandleJob` | internal/worker/daemon.go:300-326 | with one reused read buffer, the memory of every frame sent still holds exactly the specified frames when the job ends |
| `Jobs.SendRead` | internal/worker/daemon.go:311-317 | one read into the shared buffer adds a chunk of its own memory, and none when it brought no data |
| `Jobs.JobFramesAreTheBody` | internal/worker/daemon.go:300-326 | for every reader script, data-with-error included: chunks of 1 to 4096 bytes whose concatenation is exactly the bytes read, then exactly one terminal frame naming how the reads ended, and none while they have not |
| `Jobs.BytesReadMeaning` | internal/worker/daemon.go:310-325 | the bytes read are the data of every read up to the first with an error, that one included, and that error is how the reads end |
| `Jobs.EofMeansCleanEnd` | internal/worker/daemon.go:318-325 | an EOF frame occurs only last and only when the body ended cleanly |
| `Jobs.StreamResponse` | internal/router/server.go:302-324 | the streaming loop computes the specified writer |
| `Jobs.BufferedResponse` | internal/router/server.go:327-345 | the buffering loop computes the specified writer |
| `Jobs.WritersAgree` | internal/router/server.go:297-345 | absent flush failure both writers stop at the same frame with the same single status, and on success give identical bytes |
| `Jobs.WaitingStream` | internal/router/server.go:304-322 | a stream without a status has taken every frame, none terminal, and written all their chunks |
| `Jobs.StoppedStream` | internal/router/server.go:304-322 | a stopped stream has one status, 200 if the last frame taken is EOF and 502 otherwise; on EOF exactly the chunks of all frames taken are written |
| `Jobs.StreamStopsExactly` | internal/router/server.go:304-322 | a stream has returned if and only if it took a terminal frame or a chunk whose flush failed |
| `Jobs.StreamedBytes` | internal/router/server.go:304-322 | a stream has written exactly the chunks of the frames taken, then the error event if it ended with one |
| `Jobs.BufferedAnswer` | internal/router/server.go:330-342 | the client is sent the chunks with 200 after EOF, the rendered text with 502 after an error, and nothing before |
| `Jobs.BufferedBytes` | internal/router/server.go:330-342 | a buffering writer holds exactly the chunks of the frames taken |
| `Wire.EncodeEnvelope` | internal/protocol/envelope.go:32-39 | the buffer filled in place is length byte (modulo 256), id, payload |
| `Wire.DecodeEnvelope` | internal/protocol/envelope.go:51-63 | the specified parse; succeeds exactly when the input covers the announced id |
| `Wire.EnvelopeSplitsAtLengthByte` | internal/protocol/envelope.go:32-63 | decoding an encoded envelope, for every id length: id and payload are split at the length modulo 256 |
| `Wire.EnvelopeRoundTrip` | internal/protocol/envelope.go:32-63 | the round trip holds if and only if the id has at most 255 bytes |
| `Wire.EnvelopeReencodes` | internal/protocol/envelope.go:51-63 | encoding a decoded envelope restores the input |
| `Wire.Uint32RoundTrip` | internal/protocol/frame.go:41-47 | the big-endian length field reads back modulo 2^32 |
| `Wire.Uint32Reencodes` | internal/protocol/frame.go:63-78 | writing a read length field restores its four bytes |
| `Wire.EncodeFrame` | internal/protocol/frame.go:41-47 | the buffer filled in place is type, wrapped length, payload |
| `Wire.DecodeFrame` | internal/protocol/frame.go:63-78 | the specified parse; every slice in bounds for every input, payload at most 16 MiB |
| `Wire.FrameRoundTrip` | internal/protocol/frame.go:41-78 | a frame with any tail decodes to itself if and only if its payload is at most 2^24 bytes and the wrapped remainder covers it |
| `Wire.FrameRoundTripBelow4GiB` | internal/protocol/frame.go:41-78 | hence always when payload and tail stay below 2^32 bytes |
| `Wire.FrameReencodes` | internal/protocol/frame.go:63-78 | encoding a decoded frame gives a prefix of the input |
| `Wire.UnpackPack` | internal/worker/daemon.go:328-333 | through both layers a frame under a dispatch id arrives as itself under that id if and only if it is within 16 MiB, and never as a heartbeat |
| `Registry.RegistryInvariant` | internal/router/nodes.go:139-157 | over every sequence of upserts: order lists exactly the registered ids once each, entries sit under their own id, the pipe of a registered entry leads back to that very entry; so no two registered nodes share a pipe and no listed id lacks an entry |
| `Registry.InSyncUnlessTheNodeMoves` | internal/router/nodes.go:134-157 | the commented two-way agreement survives an upsert if and only if the node stays on its pipe |
| `Registry.InSyncExactlyWithoutMoves` | internal/router/nodes.go:134-157 | over any sequence of upserts the maps were in sync all along if and only if no upsert moved a registered node |
| `Registry.RetiredExactly` | internal/router/nodes.go:143-147 | an upsert removes a node if and only if the pipe map remembers that other node for this pipe |
| `Registry.StalePipeRetiresALiveNode` | internal/router/nodes.go:143-147 | a concrete run in which that node is registered on another pipe |
| `Registry.RemoveFirstOfNoDup` | internal/router/nodes.go:313-320 | removal from an order without duplicates deletes exactly that id |
| `Registry.LastEntryMeaning` | internal/router/nodes.go:139-157 | the entry step of a registered id: absent just before it, present ever since |
| `Registry.OrderIsByEntry` | internal/router/nodes.go:144-156 | order is the surviving ids sorted by the step at which each last entered |
| `Registry.SelectIsFirstMinimum` | internal/router/nodes.go:234-249 | selection returns the first minimum of activeRequests among the rows the dashboard does not call stale, and nothing if and only if all are stale |
| `Registry.SelectionIsStable` | internal/router/nodes.go:234-249 | without an upsert a later answer differs only if the chosen node itself went stale |
| `Registry.SelectedIsFresh` | internal/router/nodes.go:234-249 | a selected node is registered and was heard from within staleAfter |
| `NodeRegistry.RemoveString` | internal/router/nodes.go:313-320 | the in-place shift equals sequence removal and leaves the slots beyond untouched |
| `NodeRegistry.InsertCatalog` | internal/router/nodes.go:203-226 | the transaction commits the whole catalog if and only if no operation fails and no name repeats |
| `NodeRegistry.CatalogChanged` | internal/router/nodes.go:188-198 | true if and only if the catalogs differ |
| `NodeRegistry.NodeRegistry.Upsert` | internal/router/nodes.go:139-162 | invariant kept, the id's claim removed, registry and rows equal to the value-level step |
| `NodeRegistry.NodeRegistry.Register` | internal/router/nodes.go:140-157 | the locked section, on the backing array of order, equals the value-level upsert |
| `NodeRegistry.NodeRegistry.Append` | internal/router/nodes.go:152-154 | appending in place or into a larger array adds the id at the end |
| `NodeRegistry.NodeRegistry.Persist` | internal/router/nodes.go:166-186 | node row first, then the catalog when it changed |
| `NodeRegistry.NodeRegistry.SyncCatalog` | internal/router/nodes.go:202-228 | rows and cache change together or not at all; a repeated name rolls back |
| `NodeRegistry.NodeRegistry.RecordClaim` | internal/router/nodes.go:87-118 | one step of the claims relation, keeping its bounds; the claim is there afterwards and none is older than 60 seconds |
| `NodeRegistry.NodeRegistry.ExpireClaims` | internal/router/nodes.go:95-100 | deleting while ranging leaves exactly the unexpired claims |
| `NodeRegistry.NodeRegistry.OldestClaim` | internal/router/nodes.go:102-108 | the scan with the empty-string sentinel finds a claim with the least last attempt |
| `NodeRegistry.NodeRegistry.ClaimsSnapshot` | internal/router/nodes.go:121-132 | every claim at most 60 seconds old exactly once, and no other |
| `NodeRegistry.NodeRegistry.SelectLeastConnections` | internal/router/nodes.go:234-249 | the loop computes the specified selection and never meets a missing entry |
| `NodeRegistry.NodeRegistry.NodesSnapshot` | internal/router/nodes.go:252-292 | one row per listed node, in order, with its status at the row's own clock reading |
| `Claims.ClaimsStayBounded` | internal/router/nodes.go:87-118 | over any run at most 64 claims, never the empty id, each under its own id |
| `Claims.RejectionIsRecorded` | internal/router/nodes.go:87-118 | a rejection leaves its own claim under its id, none older than 60 seconds, and otherwise only claims that were there; one without a name changes nothing |
| `Claims.EvictionIsForced` | internal/router/nodes.go:95-117 | an unexpired claim of another node disappears only when the table is full of unexpired claims without the newcomer; it has the least last attempt and is the only one |
| `Claims.ClaimIsTheLatestRejection` | internal/router/nodes.go:87-142 | a claim is the latest rejection of a node that has not registered since |
| `Claims.FleetView` | internal/admin/server.go:260-275 | the merging loops: registered nodes, then the claims not among them |
| `Claims.FleetViewListsEachOnce` | internal/admin/server.go:260-275 | the merged view lists each registered or live-claim id exactly once, even when the two snapshots, and the rows of the first, come from different moments; a claim's row shows its reason and is at most 60 seconds old |
| `Catalog.CacheAlwaysAgrees` | internal/router/nodes.go:148-228 | from any database and any history of retirements, failed writes and restarts, a non-empty cached catalog equals the stored rows |
| `Catalog.RowsFollowTheHeartbeat` | internal/router/nodes.go:166-228 | after a heartbeat whose writes succeed the rows equal the advertised catalog if and only if it, or the cache, is non-empty or no rows were left; other nodes' rows are untouched |
| `Catalog.SyncAgrees` | internal/router/nodes.go:202-228 | after a committed sync both the cache and the rows are the catalog written, and no other node's change |
| `Catalog.EmptyCatalogLeavesOldRows` | internal/router/nodes.go:166-198 | a restart over left-over rows shows the exception |
| `Catalog.FailedSyncChangesNothing` | internal/store/migrations/002_fleet.sql:15 | a repeated name, like any failed write, leaves rows and cache unchanged |
| `Catalog.CachingRefinesRewriting` | internal/router/nodes.go:148-228 | over every run with non-empty catalogs the table is at each moment what rewriting it on every heartbeat would give |
| `WorkerState.Daemon.HandleAck` | internal/worker/daemon.go:254-298 | the four fields and the throttled warning after an ack |
| `WorkerState.Daemon.CheckDegraded` | internal/worker/daemon.go:210-220 | registered becomes degraded only after three intervals of silence |
| `WorkerState.StateIsHistory` | internal/worker/daemon.go:210-298 | every field is determined by the last decoded ack and the ticks since |
| `WorkerState.StateOverAllRuns` | internal/worker/daemon.go:189-298 | not connecting if and only if the last decoded ack was an acceptance; degraded if and only if a later tick found more than 3 intervals of silence |
| `WorkerState.WarningsAreThrottled` | internal/worker/daemon.go:263-289 | warnCount is the current run of rejections; n of them log exactly 1 + n/12 warnings |
| `WorkerState.RegisteredIsRecent` | internal/worker/daemon.go:189-220 | with ticks at most P apart, registered never outlives the last ack by more than 3 intervals + P |
| `Heartbeats.EnrollmentRepo.Create` | internal/auth/enrollment.go:37-51 | inserts a token, refusing a used id, and keeps it when signing fails; the token is active exactly until its ttl has passed, or 100 years for none |
| `Heartbeats.EnrollmentRepo.Revoke` | internal/auth/enrollment.go:78-92 | fails only for an unknown token; afterwards the token is inactive at every time |
| `Heartbeats.EnrollmentRepo.Active` | internal/auth/enrollment.go:96-114 | present, active and unexpired, or a query failure |
| `Heartbeats.HandleHeartbeat` | internal/router/server.go:197-242 | exactly one ack, OK if and only if the node was registered under the token's subject, with the heartbeat's state, model, catalog and load; when the writes succeed its non-empty catalog is what the table holds; a rejection changes nothing but the claims, where it stands under its reason, a malformed heartbeat nothing at all |
| `Heartbeats.Reachable` | internal/router/server.go:205-241 | in every run each registered token was unrevoked and unexpired when its node was last heard from |
| `Heartbeats.RegisteredHasABeat` | internal/router/server.go:225-241 | every registered entry was made by an accepted heartbeat of the run, at its lastSeen, on its pipe, with a token active then, and shows that heartbeat's state, model, catalog and load |
| `Heartbeats.RevocationBound` | internal/router/nodes.go:234-249 | a node selected at t was heard from at t - staleAfter or later with a token active then; so a token revoked or expired at T is never selected after T + staleAfter, in any run |
| `Heartbeats.RejectionDropsNothing` | internal/router/server.go:205-224 | a rejected heartbeat leaves the registry as it was; an accepted one registers the acknowledged node now, on this pipe |
| `Heartbeats.RevokedIsStillSelected` | internal/auth/enrollment.go:74-92 | the bound is attained: revoked, rejected, and still selected exactly staleAfter later |
| `Fleet.Reachable` | internal/worker/daemon.go:189-298 | over every run of any number of workers, connections and losses: what is judged and heard is an ordered subset of what was sent, every heartbeat carries its worker's id, token, state, model and number of jobs, each worker's state is its history, every registered load has its heartbeat |
| `Fleet.HandshakeRegisters` | internal/worker/daemon.go:222-298 | over an idle connection a heartbeat with an active token leaves the worker registered and the router with an entry that shows this worker on this pipe |
| `Fleet.JobsAreCounted` | internal/worker/daemon.go:300-302 | a job is counted from its start to its end |
| `Fleet.VerdictAgreement` | internal/router/server.go:246-255 | on a connection without losses the k-th ack heard is the verdict on the k-th heartbeat sent; with losses the order still holds |
| `Fleet.RegisteredWorkersWereAccepted` | internal/worker/daemon.go:254-298 | a registered or degraded worker has an accepted heartbeat on one of its own connections, losses or not |
| `Fleet.SelectedLoadIsReal` | internal/worker/daemon.go:222-228 | the load selection compares is the number of jobs the worker had running when it built the heartbeat behind the entry: the latest accepted on that pipe, acknowledged under the selected id |
| `Splitter.Statements` | internal/store/store.go:163-209 | the one-pass scanner equals, for every script, the two passes: strip comments through their newline at even quote parity, split at semicolons at even parity, trim, drop empties; doubled-quote lookahead is plain toggling |
| `Splitter.SkipComment` | internal/store/store.go:190-195 | the comment skip stops just past the newline, or past the end |
| `Splitter.StatementsHoldNoBareCut` | internal/store/store.go:163-209 | every statement is non-empty, trimmed and free of semicolons and comment starts outside string literals |
| `Splitter.LineEnds` | internal/store/store.go:190-195 | what follows a line starts just after its newline; after the last line there is nothing |
| `Splitter.CommentsChangeNothing` | internal/store/store.go:190-195 | a comment outside string literals can be deleted with its newline without changing the statements |
| `Splitter.SplitOfJoin` | internal/store/store.go:163-209 | every list of well-formed statements is recovered from its join |
| `Splitter.NothingElseIsLost` | internal/store/store.go:163-209 | blanks apart, the statements together are the script without its comments and its separating semicolons |
| `Splitter.TrimSpaceCuts` | internal/store/store.go:197-199 | trimming cuts blanks off both ends and nothing else |
| `Splitter.ResplitIsStable` | internal/store/store.go:163-209 | joining the statements with ";" and splitting again gives the same list |
| `Migrations.Database.ApplyMigration` | internal/store/store.go:118-137 | all statements and the record, or no trace; succeeds exactly when no operation fails and the name is new |
| `Migrations.Database.Migrate` | internal/store/store.go:77-114 | the loop with its set read once equals the specified open of the files' statements, success and failure alike |
| `Migrations.ShippedPrefix` | internal/store/store.go:91-112 | a binary with fewer files behaves as the list cut off there |
| `Migrations.RecordedIsAlwaysAPrefix` | internal/store/store.go:77-137 | after any history of opens failing anywhere, by binaries shipping any number of the files, the recorded names are a prefix of the list and the schema is exactly that prefix run in order |
| `Migrations.SchemaIsTheRecordedStatements` | internal/store/store.go:118-137 | after any history the schema is the initial one with exactly the statements of the recorded files executed on it, one after the other, each once and in order |
| `Migrations.SuccessfulOpenIsCleanOpen` | internal/store/store.go:77-137 | the next successful open reaches the very database of one clean open |
| `Migrations.LaterOpensChangeNothing` | internal/store/store.go:77-137 | after it no open changes anything |
| `Migrations.OpenSucceedsExactlyWhenPaid` | internal/store/store.go:77-137 | an open succeeds if and only if no operation it still needs fails |
| `AuditWriter.Repo.Record` | internal/audit/repo.go:56-62 | never blocks; the entry joins the end of the queue exactly when it has room, otherwise nothing changes |
| `AuditWriter.Repo.InsertBatch` | internal/audit/repo.go:106-138 | all rows of the batch or none |
| `AuditWriter.Repo.FlushBatch` | internal/audit/repo.go:72-80 | an empty batch does nothing; otherwise one attempt, after which the batch is empty |
| `AuditWriter.Repo.ReceiveOne` | internal/audit/repo.go:95-99 | one entry moves from queue to batch, flushing at 64 |
| `AuditWriter.Repo.OnTick` | internal/audit/repo.go:100-101 | a tick flushes |
| `AuditWriter.Repo.Drain` | internal/audit/repo.go:83-94 | everything queued joins the batch in order, which is flushed before the writer stops |
| `AuditWriter.AuditConservation` | internal/audit/repo.go:56-145 | in every reachable state accepted = flushed + batch + queue in order, stored rows = the batches that committed, the queue is within its depth, batches stay below 64 before close |
| `AuditWriter.CloseFlushesEverythingAccepted` | internal/audit/repo.go:82-145 | once stopped, everything accepted before cancel has been flushed, in order |
| `AuditWriter.AcceptedIsSubsequenceOfOffered` | internal/audit/repo.go:56-62 | dropping never reorders or invents an entry |
| `AuditWriter.AcceptedExactly` | internal/audit/repo.go:56-62 | the accepted entries are exactly the offered ones whose Record did not find the queue full |
| `AuditWriter.NothingDroppedWithRoom` | internal/audit/repo.go:56-62 | so everything offered is accepted in runs whose queue is never full |
| `AuditWriter.StoredWhenAllCommit` | internal/audit/repo.go:72-145 | when every transaction commits the rows are everything flushed, and after a close they hold everything accepted before it |
| `AuditWriter.CloseStops` | internal/audit/repo.go:83-145 | cancelling a running writer leads to a stopped one that has flushed its batch and its whole queue |
| `AuditWriter.DrainIsARun` | internal/audit/repo.go:83-94 | the drain loop is one of the machine's runs |
| `LoginLimiter.Limiter.Allow` | internal/admin/limiter.go:34-45 | every attempt is charged to its IP's window; allowed exactly within the limit |
| `LoginLimiter.RateBound` | internal/admin/limiter.go:34-45 | in any run and any closed interval one window long at most 2*limit - 1 attempts of one IP are allowed |
| `LoginLimiter.RateBoundIsTight` | internal/admin/limiter.go:34-45 | the bound is attained for every limit and positive window |
| `LoginLimiter.OtherIPsDoNotMatter` | internal/admin/limiter.go:34-45 | an attempt is answered as if only its own IP had ever called |
| `NonceStore.Store.Purge` | internal/admin/nonce.go:65-71 | exactly the expired entries go |
| `NonceStore.Store.Put` | internal/admin/nonce.go:33-44 | the purged table with the new entry; nothing changes when no nonce could be drawn |
| `NonceStore.Store.Take` | internal/admin/nonce.go:49-61 | answers an unexpired entry and removes it either way |
| `NonceStore.TakeRevealsTheStandingPut` | internal/admin/nonce.go:33-71 | a take reveals v if and only if some put of v under that nonce is untouched since and unexpired |
| `NonceStore.PurgingIsInvisible` | internal/admin/nonce.go:33-71 | over every run the purging store answers like one that never purges |
| `NonceStore.RevealedAtMostOnce` | internal/admin/nonce.go:49-61 | no nonce is revealed more often than it was put |
| `AdminKeys.APIKeyRepo.Create` | internal/auth/apikey.go:146-169 | inserts an active client key without expiry, refusing a used id |
| `AdminKeys.APIKeyRepo.Verify` | internal/auth/apikey.go:193-226 | a key found is usable, shares the prefix and matches the hash; a rejection as invalid means no usable candidate matches; a failing query or row read is reported |
| `AdminKeys.LookupMeaning` | internal/auth/apikey.go:193-226 | a token resolves to a key if and only if the first candidate that is usable and no mismatch is read and matches; then the key is usable, and what is called invalid matches no usable candidate |
| `AdminKeys.APIKeyRepo.Revoke` | internal/auth/apikey.go:232-246 | fails only for an unknown key; afterwards the key is unusable at every time |
| `AdminKeys.APIKeyRepo.ActiveByID` | internal/auth/apikey.go:252-270 | present, active and unexpired, or a query failure |
| `AdminKeys.CookieRoundTrip` | internal/admin/server.go:490-518 | an issued cookie verifies to its key if and only if the key id has no separator and it has not expired |
| `AdminKeys.VerifiedCookieIsSigned` | internal/admin/server.go:500-518 | only a cookie that is an id, an unexpired time and the MAC of exactly those two verifies |
| `AdminKeys.AdminServer.RequireSession` | internal/admin/server.go:170-182 | a session exists exactly for a valid cookie of a usable key |
| `AdminKeys.AdminServer.LoginSubmit` | internal/admin/server.go:191-241 | the attempt is charged in any case; a cookie is issued if and only if the attempt is allowed, the token is not empty and the first candidate that is usable and no mismatch is an admin key that matches; it is that key's cookie |
| `AdminKeys.AdminServer.KeyRevoke` | internal/admin/server.go:379-394 | revokes, for good, exactly when a session of another key asks and the key exists; no other key changes |
| `AdminKeys.AdminCanRevoke` | internal/admin/server.go:191-241 | an admin who logs in holds a cookie with which any other key can be revoked |
| `AdminKeys.RevokedForever` | internal/auth/apikey.go:232-246 | no continuation makes a revoked key active again |
| `AdminKeys.RevokedKeyIsDead` | internal/admin/server.go:170-182 | after a revocation no bearer check and no session, at any later time of any run, acts for that key |
| `AdminKeys.OnlyAdminsHoldCookies` | internal/admin/server.go:210-230 | in every run cookies belong to admin keys |
| `AdminKeys.DashboardNeverLocksOut` | internal/admin/server.go:379-394 | in every run a dashboard revocation is made by another usable admin key that stays usable, so it never empties the set of usable admin keys |

## Left out

- The mesh transport (internal/mesh): pipes are FIFO queues that may lose any
  message; a job's frames stay on the pipe it was dispatched on.
- TLS, PASETO, argon2 and HMAC: opaque functions; the hash encoding in
  internal/auth/apikey.go:87-135 rests on libraries outside the repository.
- The dashboard's pages, templates, CSP headers and logout, and internal/config and
  cmd: only key promotion and command-line revocation appear, as events.
- The engine and catalog HTTP clients: an engine is a finite script of reads, a
  catalog is an input.
- SQL text: abstract tables with atomic transactions; a commit whose outcome is
  unknown counts as not committed.
- JSON: heartbeats and acks are records, with a malformed case on the router and an
  undecodable case on the worker.
- Scripts are sequences of Unicode characters; byte sequences that are not valid
  UTF-8 are not modelled.
- Migration files come sorted, with distinct names, as a directory listing gives them.
- VRAM, token-rate and session telemetry in heartbeats, audit timestamps, and reading
  back audit rows and admin events: carried or reported, never decided on.
- Time is unbounded: saturation of time.Duration is not modelled.
- Heartbeats.HandleHeartbeat: it and the machines above it read the clock once per
  heartbeat, so checking a token and registering its node are one step.
- Streaming.Reachable: takes engine error texts to be shorter than 4 GiB, and request
  ids to be fresh, as generated UUIDs are.
- WorkerState.RegisteredIsRecent: takes the tick spacing P as a parameter; the
  ticker's switch between two periods is not modelled.
- Streaming.NonInterference: rests on workers naming only the requests dispatched to
  them, since the receive loop does not compare a frame's pipe with the dispatch's.
- Data races: each mutex-protected section is one step.
- A claim table's iteration order: which of several equally old claims is evicted is
  left open, as Go leaves it.
