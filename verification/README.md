# DistriStore, modelled and proved in Dafny

DistriStore is a peer-to-peer storage node. This project models its protocols and its file engine
and proves what they keep over every run, what one half undoes of the other, and where the code
does not keep what its documentation promises. Check it with `dafny verify dfyconfig.toml`.

| file | what it models |
|---|---|
| Gossip.dfy, GossipRuns.dfy, GossipRepeats.dfy | the chat flood: many nodes, copies on the wire, handlers that show and forward; what every run does, and when a message is shown twice |
| ChatDb.dfy, Consent.dfy, ConsentOutcomes.dfy | the thread table and the invite/accept handlers, interleaved at every await; what each call comes to undisturbed |
| SlidingWindow.dfy | fill loop, ACK listener and retransmission sweep over an unreliable channel |
| Download.dfy, DownloadManager.dfy | the resumable download: the state machine with the invariant of every run, and the manager object whose methods are its steps |
| DownloadCrash.dfy, DownloadCalls.dfy, DownloadLosses.dfy, DownloadTwoWorkers.dfy | how far the .resume file may be behind, which calls keep that bound and exactly which lose it |
| DownloadFetches.dfy | which chunks a worker fetches |
| DownloadRecovery.dfy | downloads after a crash, what each call and each end of a worker does, and that no tracked download stands still unseen |
| Merkle.dfy | root, proof and verifier loops |
| Crypto.dfy, Chunker.dfy, Pipeline.dfy, Merging.dfy, AtRest.dfy | the chunk format, both chunkers, the four mergers, how they fit together, and what is stored byte by byte |
| Erasure.dfy, Polynomial.dfy | k-of-n sharding, the two-pass shard collection, and a code that meets the library contract |
| Threshold.dfy, KeyShares.dfy, KeyReleases.dfy | splitting a file key, placing the shares, releasing and collecting them, and who is refused |
| SealedBoxes.dfy, Onion.dfy | circuits: picking, packing, relaying |
| Routing.dfy, Distances.dfy, SelfHealing.dfy | XOR distances of hex ids, nearest peers, target selection, the healing cycle |
| LocalStore.dfy | chunk files, eviction and the quota tick |
| Framing.dfy | length-prefixed frames |
| Seqs.dfy | sequences, sums, sorting |

How the model is built:

- The protocols of several nodes (gossip, consent, sliding window, downloads) are state machines on
  values. Each uninterrupted stretch of a handler is one step, so whatever happens between two awaits
  is covered, stale reads included. Claims are about every run from the start state.
- Objects that are changed in place by one node (thread table, chunk store, key-share table, window
  bookkeeping, download manager, routing table, connection) are classes; loops are methods with
  invariants, each proved against a specification function.
- SHA-256 is a function parameter that is never assumed injective: a claim reads "equal, or here are
  two different inputs with one digest".
- AES-GCM, PBKDF2, zstd, SealedBox, JSON, msgpack, Reed-Solomon coding and Shamir's scheme are
  parameters under contracts. Each contract whose consistency is not obvious is shown to be
  satisfiable.
- Clocks, random draws, peers' answers, failures of sends and of unlinks, and the iteration order of
  dictionaries are parameters or free choices of a step.

Where the code and its documentation or its apparent intent part:

- The seen-id cache drops an arbitrary id above 500, possibly the one just admitted. Some run over at
  most N ids shows a message twice at a node if and only if N > 500 and copies can reach the node from
  the originator in two different ways (`GossipRepeats.ShownTwiceExactly`). The other gossip claims are
  for at most 500 ids.
- Both sides need not agree on a thread: in any quiet world the caller ignores that its invite was
  accepted at once, and this leaves one side accepted and the other pending for good exactly when the
  caller may invite and the other side has an invite out or has accepted
  (`Consent.CrossedInviteDisagrees`, `Consent.DisagreementPersists`); both cases are reached from the
  start (`Consent.DisagreementReached`, `Consent.DisagreementReachedAgain`).
- The sliding window never slides once the initial fill is over, and the reported number of
  retransmissions is always 0 (`SlidingWindow.NothingSentAfterFill`,
  `SlidingWindow.RetransmissionsReportedZero`).
- The guards of start and resume test only `downloading` and `completed`. The crash bound (at most
  FLUSH_INTERVAL - 1 chunks lost) holds in every run whose start and resume calls are accepted only at
  rest; calls that the guards refuse are free (`DownloadCrash.CrashLosesLessThanAFlush`), and rest can
  be seen from the status and the waiting pauses (`DownloadCalls.RestIsVisible`). A single call that
  breaks this rule can lose the bound by itself if and only if it is a start with nothing missing
  (`DownloadCalls.CarelessCallAlone`); together with later calls that merely look right any such call
  can, if and only if the file has chunks (`DownloadLosses.CarelessCallInTheEnd`). Not calling while
  finalizing is not enough: 18 chunks are lost (`DownloadTwoWorkers.EighteenChunksLost`). Clearing a
  running download hides its worker (`DownloadLosses.ClearedDownloadBreaks`).
- No run makes a worker fetch what was completed when it was created
  (`DownloadFetches.NeverRefetched`); it fetches what is completed by then exactly when another worker
  on the same state completed it (`DownloadFetches.FetchIsWasted`), which happens
  (`DownloadFetches.TwoWorkersFetchTwice`).
- A download cleared while its worker fetches leaves, when the fetch then fails, a .resume file that says
  `downloading`: with nobody working on the file every start and resume is refused until a restart
  (`DownloadRecovery.StaleFileBlocks`; the exact condition is `DownloadRecovery.UntrackedStart`). A
  tracked download never claims work that nobody does (`DownloadRecovery.StatusIsTruthful`). After a
  restart a completed download is paused too, and a start begins it anew
  (`DownloadRecovery.NextStartBeginsAnew`).
- A message of a renamed peer can store a thread again that was deleted in between
  (`ConsentOutcomes.RefreshRevives`).
- A Merkle proof generated for an index out of range is a full proof of a leaf exactly when there is
  one leaf, or the index is n and n is odd (`Merkle.PhantomExactly`); otherwise it is a proof of a node
  above the leaves (`Merkle.PhantomIndex`, `Merkle.PhantomProves`).
- A second healing cycle is idle exactly when the entry was full, the chunk is not stored here, or the
  peers that failed fail again (`SelfHealing.SecondCycleChangesNothing`).
- A round of the storage monitor restores the quota exactly when the files it cannot delete, and the
  files that are no chunks, leave room for that (`LocalStores.TickRestoresQuota`).
- Chunk size 0 loses the file; an empty password makes `chunk_file` fail (`Merging.ZeroChunkSize`,
  `Merging.EmptyPassword`).
- An explicit list of share holders may repeat one, and then a quorum of holders is not enough
  (`KeyShares.RepeatedHolderLosesKey`; the exact condition is `Threshold.RecoveryIsExact`).
- A hop with an empty id ends a circuit early (`Onion.DeliveryIsExact`).
- After a failed chunk the disk mergers leave the part written so far at the output path; only a
  failed integrity check removes it (`Chunker.DiskOutcome`).

## Model

| member | source | states |
|---|---|---|
| Gossip.SeenIds.Admit | backend/api/routes.py:878-886 | Admission to the seen set: a known id is refused; a new one enters, and an overfull cache then drops one arbitrary id. |
| Gossip.ReachesStep | backend/api/routes.py:911-937 | Reachability over links that an inbound loop reads is closed under one more such link. |
| Gossip.StepInv | backend/api/routes.py:860-937 | Every step of originating, delivering, showing and sending keeps the gossip invariant while at most 500 ids exist. |
| GossipRuns.RunInv | backend/api/routes.py:860-937 | The gossip invariant holds after every run with at most 500 ids. |
| GossipRuns.ShownAtMostOnce | backend/api/routes.py:911-937 | In every run over at most MAX_SEEN ids no node shows a message twice. |
| GossipRuns.DeliveredExactlyToReachable | backend/api/routes.py:855-937 | Once settled, a node has shown a message exactly once if it is reachable from the originator along links that are read, and never otherwise. |
| GossipRuns.RunsTerminate | backend/api/routes.py:855-937 | Every run over finitely many ids ends: its length plus the remaining measure never exceeds the initial measure. |
| GossipRuns.StepDecreases | backend/api/routes.py:855-937 | Every step lowers the measure of unseen pairs, in-flight copies and pending sends. |
| GossipRuns.UnsettledCanMove | backend/network/connection.py:214-219 | A state with a copy on the wire or a running handler can always move, so runs end settled. |
| GossipRepeats.OneWayShowsOnce | backend/api/routes.py:911-937 | In every run, whatever the caches forget, a node that copies of a message can reach in one way only shows it at most once. |
| GossipRepeats.Arrive | backend/api/routes.py:915-925 | A full cache can evict the id just admitted: the copy is shown and the cache is as before. |
| GossipRepeats.Carry | backend/api/routes.py:911-937 | With full caches a copy follows any way to its end, and the nodes it starts and ends at show it once more. |
| GossipRepeats.RepeatReached | backend/api/routes.py:855-937 | A run from the initial state, over one id more than a cache holds, shows a message twice wherever two ways lead. |
| GossipRepeats.ShownTwiceExactly | backend/api/routes.py:855-937 | For every graph, originator, node and number N: some run over at most N ids shows a message of the originator twice at the node if and only if N exceeds MAX_SEEN and copies can reach the node in two different ways. |
| ChatDb.UpsertStatus | backend/storage/db.py:289-306 | The conditional upsert never takes an accepted thread back to a pending state, and otherwise stores the given status. |
| ChatDb.NodeDatabase.UpsertChatThread | backend/storage/db.py:275-312 | The row after an upsert: merged status, name kept when the new one is empty, other rows and the messages unchanged. |
| ChatDb.NodeDatabase.GetChatThread | backend/storage/db.py:314-319 | Returns exactly the stored row. |
| ChatDb.NodeDatabase.DeleteChatThread | backend/storage/db.py:327-335 | Removes the thread and all its messages, nothing else. |
| ChatDb.NodeDatabase.AppendChatMessage | backend/storage/db.py:337-357 | Adds one message, leaves every thread status as it was. |
| ChatDb.RowAfterWrites | backend/storage/db.py:275-312 | After any sequence of upserts of a peer: who invited is what the first said, the name is the last not empty, the status the last written, but acceptance stays. |
| ChatDb.OtherRowsStay | backend/storage/db.py:275-312 | Upserts of one peer leave every other row as it is. |
| Consent.StepInv | backend/api/routes.py:1157-1412 | Every database or network step of any handler keeps: a thread status or pending handler is backed by the invites and accepts that justify it. |
| Consent.RunInv | backend/api/routes.py:1157-1412 | That invariant over every interleaving of every run. |
| Consent.ConsentIsMutual | backend/api/routes.py:1157-1484 | If X holds Y as accepted, or has logged a chat, share or key share from Y, then X has invited or accepted Y and Y has invited or accepted X. |
| Consent.AcceptedLeftOnlyByDeletion | backend/storage/db.py:296-301 | Under every step an accepted thread stays accepted, or the step deletes its row. |
| Consent.InviteResult | backend/api/routes.py:1157-1351 | What an undisturbed invite makes of the two rows, whatever they were: unanswered, auto-accepted, or unchanged. |
| Consent.CrossedInviteDisagrees | backend/api/routes.py:1187-1196 | In every quiet world a run reaches, whatever row y has: after an undisturbed invite of x by y the two are stuck, x accepted and y pending, if and only if y could send the invite and x had an invite out or had accepted y. |
| Consent.InviteRuns | backend/api/routes.py:1157-1351 | Such an invite is possible from every quiet world in which y may invite. |
| Consent.DisagreementReached | backend/api/routes.py:1157-1412 | A run from the start reaches the crossed invite: x invites, y deletes the invite and invites x. |
| Consent.DisagreementReachedAgain | backend/api/routes.py:1157-1412 | A run from the start reaches the other case: x has accepted, the row of y is gone, and y invites again. |
| Consent.DisagreementPersists | backend/api/routes.py:1157-1412 | From such a state no run without a deletion brings the two sides together or lets Y log anything from X. |
| ConsentOutcomes.InviteOutcome | backend/api/routes.py:1157-1351 | In every quiet world an undisturbed invite is possible, and this is all it changes and what it answers, whatever the two rows are. |
| ConsentOutcomes.AcceptOutcome | backend/api/routes.py:1201-1233 | In every quiet world an undisturbed accept is possible; it succeeds exactly when an invite is pending, and then both rows are accepted and nothing else changes. |
| ConsentOutcomes.RejectOutcome | backend/api/routes.py:1236-1261 | The same for a reject: neither row is left. |
| ConsentOutcomes.UnreachableReject | backend/api/routes.py:1248-1261 | A reject whose peer cannot be reached still removes the own row. |
| ConsentOutcomes.MailOutcome | backend/api/routes.py:1264-1412 | In every quiet world an undisturbed message, share or key share is logged at the receiver and answered with success if and only if both rows are accepted; otherwise it is refused and nothing is logged. |
| ConsentOutcomes.FailedPeer | backend/api/routes.py:1178-1261 | When the called handler dies the caller fails and changes nothing, but a reject goes on. |
| ConsentOutcomes.RefreshRevives | backend/api/routes.py:1399-1412 | A message of a renamed peer stores a thread again that was deleted since it was read. |
| ConsentOutcomes.HandshakeDelivers | backend/api/routes.py:1157-1412 | Invite, accept and message, each undisturbed, open the thread on both sides and deliver. |
| SlidingWindow.Window.HandleAck | backend/strategies/sliding_window.py:165-177 | An acknowledgement moves the index out of the window into the acknowledged set, and sets done when all are acknowledged. |
| SlidingWindow.Window.CountRetransmissions | backend/strategies/sliding_window.py:113-132 | The reported count: acknowledged indices that still have an unacknowledged entry with a retry. |
| SlidingWindow.StepInv | backend/strategies/sliding_window.py:75-226 | Every step of fill, listener and sweep over a lossy, duplicating, reordering channel keeps the window, channel, retry and completion invariants. |
| SlidingWindow.RunInv | backend/strategies/sliding_window.py:75-226 | Those invariants hold after every run. |
| SlidingWindow.WindowSafety | backend/strategies/sliding_window.py:94-102 | In flight never exceeds the window; unacked and acked are disjoint and together are what was sent; no chunk is transmitted more than 1 + MAX_RETRIES times; and every counted retry was transmitted or its send raised. |
| SlidingWindow.AllAckedMeansAllStored | backend/strategies/sliding_window.py:116-122 | As many acknowledgements as chunks means that the receiver holds every chunk. |
| SlidingWindow.RetransmissionsReportedZero | backend/strategies/sliding_window.py:113-132 | The reported number of retransmissions is 0 in every run, whatever was retransmitted. |
| SlidingWindow.NothingSentAfterFill | backend/strategies/sliding_window.py:179-186 | A remark: once the initial fill has ended no step is left that brings a further chunk into the window. |
| SlidingWindow.ReturnsOnlyIfFilled | backend/strategies/sliding_window.py:94-102 | A return without a lost connection happens only when everything was sent and is stored. |
| SlidingWindow.SweepSendsEach | backend/strategies/sliding_window.py:198-226 | A sweep whose sends work transmits each expired chunk with retries left exactly once more and nothing else. |
| SlidingWindow.LostChunkIsResent | backend/strategies/sliding_window.py:188-226 | A chunk in flight that has timed out is sent again if it has retries left. |
| SlidingWindow.CanComplete | backend/strategies/sliding_window.py:75-132 | A transfer can return without a lost connection if and only if the window has room or there is nothing to send; then it can do so transmitting every chunk once. |
| SlidingWindow.FirstWindowIsSent | backend/strategies/sliding_window.py:94-99 | As long as nothing is acknowledged, the fill puts exactly the first window of chunks in flight. |
| SlidingWindow.FailedPushEnds | backend/strategies/sliding_window.py:94-111 | After a send that raises nothing more is sent and the transfer does not return. |
| SlidingWindow.LossReturns | backend/strategies/sliding_window.py:148-156 | A waiting transfer returns when the connection is lost. |
| DownloadManagers.DownloadManager.SaveResume | backend/api/download_manager.py:129-138 | Writes the state to the .resume file, without the output path; nothing else changes. |
| DownloadManagers.DownloadManager.FindExisting | backend/api/download_manager.py:198-198 | The tracked state, or else the one read back from the .resume file. |
| DownloadManagers.DownloadManager.StartDownload | backend/api/download_manager.py:175-252 | A valid manager stays valid and keeps its promises (partition of 0..n-1 on both records, meaning of completed); an unfinished state is continued, otherwise a new one replaces it, saved and given a worker. |
| DownloadManagers.DownloadManager.PauseDownload | backend/api/download_manager.py:256-285 | Keeps the promises; the stop event is set, and the call waits for a running worker or pauses at once. |
| DownloadManagers.DownloadManager.CompletePause | backend/api/download_manager.py:282-285 | Keeps the promises; the .resume file then says paused and has exactly the lists of the state. |
| DownloadManagers.DownloadManager.ResumeDownload | backend/api/download_manager.py:294-339 | Keeps the promises; a state that is neither running nor completed gets a worker, if there is a manifest. |
| DownloadManagers.DownloadManager.MarkArrived | backend/api/download_manager.py:377-385 | The arrived index moves from missing to completed and its chunk is stored. |
| DownloadManagers.DownloadManager.ToVisit | backend/api/download_manager.py:357-366 | The loop over the manifest visits exactly the missing indices, in manifest order. |
| DownloadManagers.DownloadManager.RunWorker | backend/api/download_manager.py:357-421 | Keeps the promises; the worker goes on to its next fetch, stops, or saves and begins the final merge. |
| DownloadManagers.DownloadManager.ChunkArrived | backend/api/download_manager.py:377-397 | Keeps the promises; the .resume file is then behind by no more than the chunks since the flush, which are fewer than FLUSH_INTERVAL. |
| DownloadManagers.DownloadManager.FetchFailed | backend/api/download_manager.py:399-408 | Keeps the promises; progress is saved before the status becomes error. |
| DownloadManagers.DownloadManager.WorkerCancelled | backend/api/download_manager.py:423-427 | Keeps the promises; a cancelled worker saves its state as paused, unless it had not started. |
| DownloadManagers.DownloadManager.MergeFinished | backend/api/download_manager.py:435-473 | Keeps the promises: completed only when the output has the file hash. |
| DownloadManagers.DownloadManager.FinalMerge | backend/api/download_manager.py:410-473 | The merge itself, composed with the pipeline: the download is completed exactly when the merged file was written, and the hash it records is that of the written bytes. |
| DownloadManagers.DownloadManager.Recover | backend/api/download_manager.py:157-171 | What the .resume file holds becomes a paused download with exactly the saved lists and no worker, and the promises are kept. |
| Download.StepInv | backend/api/download_manager.py:157-473 | Every start, resume, pause, timeout, fetch, merge, failure, cancellation, crash, recovery or eviction keeps the invariant of the records, workers and .resume file. |
| Download.RunInv | backend/api/download_manager.py:157-473 | That invariant holds after every run. |
| Download.PartitionAndCompletion | backend/api/download_manager.py:129-473 | In every run the tracked state and the .resume file partition 0..n-1, and completed means nothing missing and an output with the file hash. |
| Download.CompletedIsStored | backend/api/download_manager.py:362-397 | In every run without eviction the chunk of every completed index is in the local store. |
| DownloadCrash.StepKeeps | backend/api/download_manager.py:129-473 | Every step but an accepted call keeps the link between the tracked record and the .resume file, with one worker or none. |
| DownloadCrash.CrashLosesLessThanAFlush | backend/api/download_manager.py:129-433 | If start and resume are accepted only while nothing runs or waits (calls the guards refuse are free), the saved completed list is at every await a prefix of the tracked one, at most FLUSH_INTERVAL - 1 shorter, and equal once idle. |
| DownloadCalls.RestIsVisible | backend/api/download_manager.py:175-339 | After every such run an accepted call is at rest exactly when the status it sees is not finalizing and no pause waits. |
| DownloadCalls.CarelessCallAlone | backend/api/download_manager.py:198-339 | In every state such a run reaches: an accepted call made with a worker running or a pause waiting, with nothing called out of order afterwards, can lose the bound if and only if it is a start, nothing is missing and the file has chunks. A resume never does by itself. |
| DownloadCalls.EmptyFileIsSafe | backend/api/download_manager.py:129-433 | A file without chunks never loses anything, whatever is called when. |
| DownloadLosses.CarelessCallInTheEnd | backend/api/download_manager.py:198-339 | If later calls rely on status and pauses alone, any accepted call made while finalizing or while a pause waits can lead to the loss of the bound, if and only if the file has chunks. |
| DownloadLosses.CarefulIsOrderly | backend/api/download_manager.py:198-339 | Conversely calls that wait for status and pauses to be at rest are at rest. |
| DownloadLosses.ClearedDownloadBreaks | backend/api/download_manager.py:487-520 | Clearing a download whose worker runs hides the worker: a following start can lose the bound, if and only if the file has chunks. |
| DownloadRecovery.RecoveredIsPaused | backend/api/download_manager.py:157-171 | After every crash with a .resume file the tracked download has exactly the saved lists, is paused, and no worker or waiting pause is left. |
| DownloadRecovery.NextCallGoesOn | backend/api/download_manager.py:175-339 | The next resume with a manifest, or start with something missing, goes on with these lists: one fresh worker on that record. |
| DownloadRecovery.NextStartBeginsAnew | backend/api/download_manager.py:219-235 | A start with nothing missing, completed downloads included, begins with all chunks missing. |
| DownloadRecovery.CrashedDownloadCompletes | backend/api/download_manager.py:157-473 | From whatever a run has led to, a crash with a .resume file can be followed by a resume that completes, with nothing missing and the file hash. |
| DownloadRecovery.AcceptedStartEffect | backend/api/download_manager.py:198-252 | An accepted start goes on with the lists it finds or begins anew, and saves the record as downloading. |
| DownloadRecovery.AcceptedResumeEffect | backend/api/download_manager.py:303-339 | An accepted resume goes on with the lists it finds and leaves the .resume file as it is. |
| DownloadRecovery.ClearFinishedEffect | backend/api/download_manager.py:504-520 | Clearing finished downloads forgets a completed or failed one and its file, and nothing else. |
| DownloadRecovery.WorkerEnds | backend/api/download_manager.py:399-473 | What record and .resume file say after a failed fetch, a failed or finished merge and a cancellation. |
| DownloadRecovery.PauseStops | backend/api/download_manager.py:256-292 | A pause of a fetching download keeps the chunk under way, fetches no other, and ends paused with its lists saved. |
| DownloadRecovery.PauseGetsThrough | backend/api/download_manager.py:272-292 | A pause that has waited too long cancels its worker and then pauses and saves. |
| DownloadRecovery.StatusIsTruthful | backend/api/download_manager.py:157-473 | In every run, with crashes or without, a tracked download says downloading only while a live worker is on it or a pause of it waits, and finalizing only while a live worker merges it. |
| DownloadRecovery.NeverStuck | backend/api/download_manager.py:198-310 | A tracked download that nobody attends to can be started and resumed unless it is complete. |
| DownloadRecovery.UntrackedStart | backend/api/download_manager.py:198-207 | With nothing tracked a start is refused exactly when the .resume file says downloading or completed, whoever works on it. |
| DownloadRecovery.StaleFileBlocks | backend/api/download_manager.py:398-408 | A run from the fresh state after which nobody works on the file and every start and resume is refused until a restart. |
| DownloadRecovery.EvictionLosesCompleted | backend/storage/local_store.py:98-122 | With eviction a completed chunk can be missing from the store. |
| DownloadFetches.NeverRefetched | backend/api/download_manager.py:357-397 | In every run, whatever is called when: a worker never fetches an index that was marked completed in its record when it was created. |
| DownloadFetches.FetchIsWasted | backend/api/download_manager.py:357-397 | In every run: the chunk being fetched is by then marked completed if and only if another worker completed it on the same record since this one was created. |
| DownloadFetches.TwoWorkersFetchTwice | backend/api/download_manager.py:256-397 | A run from the fresh state, for every file with chunks, in which a worker fetches what another has completed. |
| DownloadFetches.FetchesOnlyMissing | backend/api/download_manager.py:357-397 | When calls are accepted only at rest, the chunk being fetched is missing and not completed. |
| DownloadLosses.StartWhileFinalizing | backend/api/download_manager.py:198-240 | For every file with chunks a run from the fresh state reaches the final merge, where a start replaces the tracked state and the old worker leaves a .resume file that is no prefix of it. |
| DownloadTwoWorkers.PausedMidwayReached | backend/api/download_manager.py:256-280 | For every file with chunks a pause that waits for a fetching worker is reached. |
| DownloadTwoWorkers.ResumeUnderWaitingPause | backend/api/download_manager.py:256-339 | From there a resume accepted while the pause waits leads to two workers on one state, without any start or resume while finalizing. |
| DownloadTwoWorkers.TwoWorkersDoubleTheLoss | backend/api/download_manager.py:387-392 | Two such workers can hold 18 chunks that the .resume file does not have. |
| DownloadTwoWorkers.EighteenChunksLost | backend/api/download_manager.py:175-433 | For every file of at least 18 chunks a run from the fresh state, with no start or resume issued while finalizing, ends more than 17 chunks behind. |
| Merkle.ComputeMerkleRoot | backend/file_engine/chunker.py:62-75 | The level loop computes the root of the pairing tree with odd last nodes duplicated. |
| Merkle.SmallTrees | backend/file_engine/chunker.py:62-75 | The roots of no leaf, one, two and three leaves written out. |
| Merkle.ClimbLevel | backend/file_engine/chunker.py:84-96 | One level of the proof loop: the sibling step for the index and the next level. |
| Merkle.ComputeMerkleProof | backend/file_engine/chunker.py:78-97 | The proof loop yields the sibling of every ancestor. |
| Merkle.VerifyMerkleProof | backend/file_engine/chunker.py:100-107 | The verifier accepts exactly when climbing the steps reaches the root. |
| Merkle.Completeness | backend/file_engine/chunker.py:78-107 | For every non-empty list and in-range index the generated proof climbs to the root and has ceil(log2 n) steps. |
| Merkle.DepthIsCeilLog2 | backend/file_engine/chunker.py:84-96 | The number of levels above n leaves is the ceiling of log2 n. |
| Merkle.PhantomIndex | backend/file_engine/chunker.py:78-97 | For every index out of range: the generated proof lacks the levels it misses, and climbs to the root from the last node above them. |
| Merkle.PhantomProves | backend/file_engine/chunker.py:78-107 | It verifies for no other digest, or two different hashed strings have one digest. |
| Merkle.PhantomExactly | backend/file_engine/chunker.py:78-107 | For every index out of range the proof has full depth and verifies for a leaf if and only if there is one leaf, or the index is n and n is odd. |
| Merkle.GeneratedProofFollows | backend/file_engine/chunker.py:78-97 | A generated proof has the positions and the length of its index. |
| Merkle.FollowsProvenIndex | backend/file_engine/chunker.py:100-107 | A full-length position sequence determines the index it proves. |
| Merkle.Soundness | backend/file_engine/chunker.py:100-107 | A full-length proof that verifies forces the claimed leaf to be the leaf it proves, or two different hashed strings have one digest. |
| Merkle.RootBinding | backend/file_engine/chunker.py:62-75 | Equal-length lists with equal roots are equal, or a collision is exhibited. |
| Merkle.OddDuplication | backend/file_engine/chunker.py:69-74 | Equal length is needed: duplicating the last leaf of an odd list keeps the root. |
| Merkle.ClaimLengthNeeded | backend/file_engine/chunker.py:100-107 | The digest length of the claim is needed: otherwise a longer claim verifies. |
| Crypto.HeaderLayout | backend/file_engine/crypto.py:81-122 | The slices the decrypting side takes are the fields the encrypting side wrote. |
| Crypto.EncryptRoundTrip | backend/file_engine/crypto.py:75-122 | Decrypting with the key, or with the password and the salt in the header, gives back the data. |
| AtRest.DecryptsExactly | backend/file_engine/crypto.py:104-122 | Decrypting with a key gives data exactly for what is laid out as version, salt, nonce, tag and ciphertext and opens with that nonce and tag. |
| Chunker.StreamChunks | backend/file_engine/chunker.py:241-253 | The read loop yields the consecutive chunks, for any chunk size. |
| Chunker.FileChunksConcat | backend/file_engine/chunker.py:241-253 | The chunks concatenate to the file, except that size 0 yields none. |
| Chunker.FileChunksFull | backend/file_engine/chunker.py:241-253 | With a positive size no chunk is empty and all but the last are full. |
| Chunker.ChunkCount | backend/file_engine/chunker.py:241-253 | As many chunks as it takes to hold the file. |
| Chunker.ChunkFile | backend/file_engine/chunker.py:305-388 | Manifest and chunk list of chunk_file, with its refusals: password together with a key, and a cipher without a key. |
| AtRest.ChunkFileEncrypts | backend/file_engine/chunker.py:333-388 | With a password, or a raw key, every entry is marked encrypted and chunk i is version, salt, nonce i, tag and ciphertext of the compressed chunk under that key; with neither it is the compressed chunk. It fails exactly when both are given or the cipher fails. |
| Chunker.CheckHashes | backend/file_engine/chunker.py:449-466 | Passes exactly when every chunk hash and the Merkle root match. |
| Chunker.FillBuffer | backend/file_engine/chunker.py:479-496 | Slice assignment into the preallocated buffer yields the concatenation of the decoded chunks, whatever size was preallocated. |
| Chunker.MergeChunks | backend/file_engine/chunker.py:441-510 | Result or error of merge_chunks for every manifest and chunk list. |
| Chunker.Merged | backend/file_engine/chunker.py:498-510 | A merge that succeeds returns bytes with the file hash. |
| Chunker.MergeChunksToDisk | backend/file_engine/chunker.py:513-567 | The written file, or the failure and what it leaves at the output path. |
| Chunker.DiskOutcome | backend/file_engine/chunker.py:555-567 | A file that is kept as a success has the file hash. |
| Chunker.DecodedExactly | backend/file_engine/chunker.py:532-553 | Chunks are decoded one by one up to the first that fails. |
| Pipeline.ChunkAndStore | backend/file_engine/pipeline.py:38-140 | With one store pending behind the packing of the next chunk, the manifest is that of sequential packing and all chunks are stored under their hashes. |
| AtRest.PipelineEncrypts | backend/file_engine/pipeline.py:60-132 | If and only if a password is given every entry is marked encrypted and chunk i is version, salt, nonce i, tag and ciphertext of the compressed chunk under the key of password and salt; otherwise it is the compressed chunk. |
| AtRest.AutomaticChunkSize | backend/file_engine/chunker.py:43-57 | The automatic chunk sizes and their thresholds; at most 200 chunks below 50 MiB and 500 below 500 MiB. |
| Pipeline.DecodeOwn | backend/file_engine/pipeline.py:185-200 | Decodes one chunk with the key of its own salt. |
| Pipeline.MergeToDisk | backend/file_engine/pipeline.py:143-224 | With the next load prefetched, the outcome is that of loading, decoding and writing in order. |
| Pipeline.StreamFile | backend/file_engine/pipeline.py:227-279 | Yields the chunks decoded in order until one fails, with the key of the first encrypted chunk. |
| Merging.SortThenLoad | backend/file_engine/pipeline.py:167-178 | Sorting pairs of entry and data gives the order of sorting entries and loading them. |
| Merging.MergersAgree | backend/file_engine/chunker.py:441-567 | With one salt all four mergers decode the same bytes and fail alike; merge_chunks adds only the chunk hash and Merkle root checks. |
| Merging.MergeVerifies | backend/file_engine/chunker.py:441-510 | merge_chunks succeeds exactly when every chunk has the hash of its entry, the Merkle root and the file hash match and every chunk decodes. |
| Merging.ChunkMergeRoundTrip | backend/file_engine/chunker.py:305-567 | chunk_file then merge_chunks or merge_chunks_to_disk gives back the file, empty file included, for any order of the pairs. |
| Merging.KeyRoundTrip | backend/file_engine/chunker.py:513-567 | The same for a file encrypted with a raw key. |
| Merging.PipelineRoundTrip | backend/file_engine/pipeline.py:38-279 | pipeline_chunk_and_store then either pipeline reader gives back the file for any order of the entries, or two different chunks of it have one hash. |
| Merging.ZeroChunkSize | backend/file_engine/chunker.py:247-253 | Chunk size 0 loses every non-empty file, unless the empty string has its hash. |
| Merging.EmptyPassword | backend/file_engine/chunker.py:344-364 | chunk_file with an empty password succeeds exactly for files without a chunk. |
| Erasure.EncodeChunk | backend/strategies/erasure.py:94-149 | Padding, splitting, encoding and hashing, with the refusals of a bad (k, n) and of an empty chunk. |
| Erasure.EncodesExactly | backend/strategies/erasure.py:94-149 | Refused exactly for an impossible (k, n) or an empty chunk; every shard described by position, hash and size. |
| Erasure.ConcatSlices | backend/strategies/erasure.py:122-127 | Cutting into k blocks and joining them is the identity. |
| Erasure.AnyKShardsDecode | backend/strategies/erasure.py:112-183 | Any k shards of distinct index, in any order, decode to the chunk for every valid (k, n) and length. |
| Erasure.DecodesExactly | backend/strategies/erasure.py:152-183 | Refused exactly for too few shards, an impossible (k, n) or missing bytes; never longer than the chunk. |
| Erasure.CollectLocal | backend/strategies/erasure.py:223-242 | The first pass: good local shards in order until k, and the positions that remain. |
| Erasure.CollectFromPeers | backend/strategies/erasure.py:244-262 | The second pass: peers asked one by one until enough, good answers cached. |
| Erasure.CollectShards | backend/strategies/erasure.py:220-262 | Both passes together: what is in hand, who was asked, what is cached. |
| Erasure.FetchAndDecode | backend/strategies/erasure.py:195-281 | Result, requests and cached shards of a fetch, for any metadata and any answers. |
| Erasure.Fetched | backend/strategies/erasure.py:270-281 | Returned bytes always have the chunk hash. |
| Erasure.PicksCount | backend/strategies/erasure.py:224-262 | Exactly k shards are collected when k are obtainable, otherwise all obtainable ones. |
| Erasure.PicksDistinct | backend/strategies/erasure.py:224-262 | No shard is collected twice. |
| Erasure.FetchSucceedsExactly | backend/strategies/erasure.py:195-281 | For encoder-made metadata the fetch gives the chunk when at least k shards are obtainable, or a hash collision is in hand, and fails when fewer are. |
| Erasure.PeersSpared | backend/strategies/erasure.py:244-248 | Peers are asked only for what is not local, and not at all exactly when k good shards, or all, are local. |
| Erasure.NextFetchIsLocal | backend/strategies/erasure.py:253-254 | After a fetch that had k shards to obtain, the next fetch of the chunk asks no peer. |
| Erasure.ContractIsMet | backend/strategies/erasure.py:129-130 | The contract asked of the coding library is satisfiable: polynomial evaluation meets it. |
| Polynomial.ShardsDetermineBlocks | backend/strategies/erasure.py:129-130 | k evaluations at distinct points determine k blocks. |
| LocalStores.LocalStore.SaveChunk | backend/storage/local_store.py:29-38 | Stores the data under the hash, replacing what was there. |
| LocalStores.LocalStore.LoadChunk | backend/storage/local_store.py:40-49 | Returns the stored data or none. |
| LocalStores.LocalStore.HasChunk | backend/storage/local_store.py:51-53 | Tells whether a chunk is stored. |
| LocalStores.LocalStore.EvictOldestChunks | backend/storage/local_store.py:98-122 | Deletes in access-time order until the target is freed; freed is the sum of the deleted sizes; files that cannot be unlinked stay. |
| LocalStores.LocalStore.DeleteInOrder | backend/storage/local_store.py:110-122 | The deletion loop over any order. |
| LocalStores.EvictedCountSpec | backend/storage/local_store.py:111-117 | Eviction goes as far as needed and no further: without the last deleted file too little is freed. |
| LocalStores.PrefixGone | backend/storage/local_store.py:107-108 | What is deleted is no younger than what stays. |
| LocalStores.LocalStore.GetStorageSize | backend/storage/local_store.py:86-92 | The total of all chunk files and the other files, in whatever order they are listed. |
| LocalStores.LocalStore.Tick | backend/advanced/garbage_collector.py:25-38 | The chunk files after one round of the monitor. |
| LocalStores.MegabyteIsBinary | backend/advanced/garbage_collector.py:25-25 | The quota is counted in binary megabytes. |
| LocalStores.FreedAndStored | backend/storage/local_store.py:111-117 | What the eviction reports as freed and what is then stored add up to what was stored. |
| LocalStores.TickRestoresQuota | backend/advanced/garbage_collector.py:25-38 | A round above the quota brings the usage below 90% of it plus one byte if and only if the files it cannot delete and the other files leave room for that; it deletes a file only while the usage is not yet there; below the quota nothing changes. |
| Threshold.SplitKey | backend/strategies/threshold.py:50-78 | Both halves split and packed under shared indices, or the refusals. |
| Threshold.AnyMSharesCombine | backend/strategies/threshold.py:50-84 | Any m packed shares of distinct position give back the exact 32-byte key. |
| Threshold.RepeatedShareRefused | backend/strategies/threshold.py:81-84 | Shares with a repeated index never combine. |
| Threshold.CollectAndCombine | backend/api/routes.py:977-1022 | Result and contacted holders of the collection loop. |
| Threshold.CollectsFirst | backend/api/routes.py:987-1009 | Exactly the shares of the first m answering positions are collected. |
| Threshold.StopsAtThreshold | backend/api/routes.py:988-989 | The loop stops right after the m-th success. |
| Threshold.RecoveryIsExact | backend/api/routes.py:977-1022 | The key is recovered exactly when m positions answer and the first m of them are different holders; nothing else is ever returned as the key. |
| Threshold.DistinctHoldersQuorum | backend/api/routes.py:977-1022 | With distinct holders: recovered exactly when at least m answer, from m distinct indices, contacting no one after the m-th success. |
| Threshold.ContractIsMet | backend/strategies/threshold.py:66-67 | The contract asked of the secret sharing library is satisfiable. |
| KeyShares.KeyShareTable.StoreKeyShare | backend/storage/db.py:500-512 | Insert or replace under (file_hash, share_index). |
| KeyShares.KeyShareTable.GetKeyShare | backend/storage/db.py:514-519 | Finds a row of the file when there is one. |
| KeyShares.HoldersAreSound | backend/api/routes.py:1826-1863 | Chosen holders are n accepted, reachable peers other than the uploader; picked automatically they are distinct and exclude the recipient. |
| KeyReleases.ChosenExactly | backend/api/routes.py:1833-1848 | An automatic choice succeeds if and only if at least n accepted, reachable peers besides the recipient are there. |
| KeyReleases.ExplicitExactly | backend/api/routes.py:1850-1863 | An explicit list is used if and only if it has n entries, each an accepted, reachable peer other than the uploader. |
| KeyShares.DistributeShares | backend/api/routes.py:1891-1912 | All shares are placed, or the upload stops at the first holder that refuses. |
| KeyShares.PlacedRows | backend/api/routes.py:1943-1983 | A holder then has exactly the rows placed with it. |
| KeyShares.PickedRow | backend/storage/db.py:514-519 | The row a holder finds for the file is one that was placed with it. |
| KeyShares.AnswerIsPlaced | backend/api/routes.py:1986-2026 | A holder that is up answers with a share placed with it, through two sealed boxes; any other holder does not answer. |
| KeyReleases.ReleasedExactly | backend/api/routes.py:1997-2026 | A share is released if and only if the request is complete, a row of the file is found, the requester is in its allowed list and its box opens; it is that share, sealed for the requester. |
| KeyReleases.OthersAreRefused | backend/api/routes.py:2003-2009 | After an upload every node refuses everyone but the recipient, whatever key is offered. |
| KeyReleases.OthersCollectNothing | backend/api/routes.py:977-1022 | A collection run by anyone but the recipient gets no share and recovers nothing. |
| KeyShares.ThresholdQuorum | backend/api/routes.py:1885-2026 | Upload, release and collection together: with distinct holders the recipient gets the exact key if and only if at least m of them are alive and reachable. |
| KeyShares.RepeatedHolderLosesKey | backend/api/routes.py:1824-1830 | With both shares at one holder the key is lost although every holder answers. |
| KeyShares.RepetitionsAreChosen | backend/api/routes.py:1824-1863 | An explicit list with a repeated holder passes the checks. |
| Onion.PickCircuit | backend/network/onion.py:57-97 | As many relays as asked or available, distinct, none of them self or the holder, then the holder; or the refusals. |
| Onion.FindPeerSpec | backend/network/onion.py:62-70 | A holder is found exactly when there is a peer of its id. |
| Onion.PackCircuit | backend/network/onion.py:110-141 | The backward loop builds the nested message; an empty circuit is refused. |
| Onion.PayloadShrinks | backend/network/onion.py:144-157 | A payload found in any received body is at most half as long, less one byte. |
| Onion.JourneyIsShort | backend/api/routes.py:559-600 | Whatever the body, a relay chain of v nodes needs a body of at least 2^(v-1) - 1 bytes, so every chain ends, repeated hops or not. |
| Onion.DeliversFrom | backend/api/routes.py:559-600 | From any hop the message passes through the hops up to the first empty id. |
| Onion.DeliveryIsExact | backend/api/routes.py:559-600 | A packed circuit visits exactly its hops in order if and only if no later id is empty, and the holder then executes the original request; otherwise the hop before the empty id answers 400. |
| Onion.ResponseIsTheHolders | backend/api/routes.py:569-580 | Over a whole circuit status 200 and the chunk come back if and only if the holder stores the chunk; 404 if not, 400 for any other operation. |
| Onion.CutCircuit | backend/api/routes.py:582-600 | A circuit with nobody listening at hop k is relayed up to the hop before, and 502 comes back. |
| Onion.UnusableIsRefused | backend/api/routes.py:555-587 | A body that is empty, not sealed to the node, or no usable layer goes no further and is answered 400. |
| Onion.PickedCircuitDelivers | backend/network/onion.py:57-141 | Any circuit picked among peers that are what they say delivers the request. |
| Onion.JsonContractIsMet | backend/network/onion.py:127-137 | The contract asked of the JSON text is satisfiable. |
| SealedBoxes.ContractIsMet | backend/network/onion.py:102-107 | The contract asked of the sealed box is satisfiable. |
| Routing.XorIdentity | backend/dht/routing.py:13-20 | Distance 0 exactly for equal points. |
| Routing.XorSymmetric | backend/dht/routing.py:13-20 | The distance is symmetric. |
| Routing.XorTriangle | backend/dht/routing.py:13-20 | The triangle inequality. |
| Routing.XorUnique | backend/dht/routing.py:13-20 | From any point there is exactly one point at any distance. |
| Distances.DistanceBits | backend/dht/routing.py:13-20 | Two ids have a distance exactly when both are hex, and it is the one number whose bits are set where those of the two positional values differ. |
| Distances.LongerPrefixIsNearer | backend/dht/routing.py:13-20 | Of two ids as long as the target, the one sharing more leading digits with it is strictly nearer. |
| Distances.DistanceIsMetric | backend/dht/routing.py:13-20 | For ids of one length: distance 0 exactly for the same digits, symmetry, the triangle inequality, and the range. |
| Distances.OneIdAtEachDistance | backend/dht/routing.py:13-20 | For ids of one length there is one at every distance in range, and only one up to the case of letters. |
| Routing.FindClosestPeers | backend/dht/routing.py:23-53 | The loop and the sort compute the nearest measurable peers; ids that are no hex are skipped. |
| Routing.NearestSpec | backend/dht/routing.py:37-48 | The result is sorted, distinct, as long as possible up to k, and no peer left out is nearer. |
| Distances.NearestAreNearest | backend/dht/routing.py:23-53 | No peer left out is at a smaller distance, in the sense of the bits, than one picked. |
| Distances.NearestShareTheLongestPrefix | backend/dht/routing.py:23-53 | Among ids as long as the target none left out shares more leading digits with it than one picked. |
| Routing.SelectTargets | backend/strategies/replication.py:161-184 | min(k, alive) distinct alive peers for any ids, and exactly the k XOR-nearest in order when all ids are hex. |
| Routing.TargetsFillUp | backend/strategies/replication.py:168-184 | After the XOR-nearest the targets are filled up from the heuristic ranking in its order; looking at 2k of it leaves nobody out. |
| Routing.RoutingTable.AssignChunk | backend/dht/routing.py:66-69 | Replaces one entry. |
| Routing.RoutingTable.GetHolders | backend/dht/routing.py:71-73 | Returns the entry, or none. |
| SelfHealing.AliveOf | backend/advanced/self_healing.py:66-66 | The alive holders of an entry, in order. |
| SelfHealing.Replicate | backend/advanced/self_healing.py:91-115 | The nearest new peers are tried in order; those whose send succeeded are appended. |
| SelfHealing.Trim | backend/advanced/self_healing.py:64-71 | The first pass cuts exactly the under-replicated entries down to their alive holders. |
| SelfHealing.Refill | backend/advanced/self_healing.py:78-117 | The second pass refills the trimmed entries of chunks stored here. |
| SelfHealing.CheckAndHeal | backend/advanced/self_healing.py:55-117 | The whole table after a cycle, entry by entry. |
| SelfHealing.HealingIsSafe | backend/advanced/self_healing.py:65-115 | No alive holder is dropped, no duplicate appears, entries with k alive holders are untouched, all others end with alive holders only, at most k. |
| SelfHealing.HealingRefills | backend/advanced/self_healing.py:79-115 | When sends succeed, an under-replicated chunk stored here ends with k holders, or with all alive holders and measurable candidates when these are fewer. |
| SelfHealing.TargetsAreNearest | backend/advanced/self_healing.py:95-97 | No alive peer passed over is nearer to the chunk than one that is tried. |
| SelfHealing.NewHoldersGotIt | backend/advanced/self_healing.py:102-115 | Whoever is new in an entry is an alive peer to which this node, having the chunk, sent it. |
| SelfHealing.SecondCycle | backend/advanced/self_healing.py:55-117 | A second cycle under the same alive set, its sends faring as they may, tries exactly the peers that failed in the first and adds those that now get the chunk. |
| SelfHealing.SecondCycleChangesNothing | backend/advanced/self_healing.py:55-117 | It changes nothing if and only if the entry was full, the chunk is not stored here, or every peer that failed in the first cycle fails again. |
| SelfHealing.HealingIsIdempotent | backend/advanced/self_healing.py:55-117 | In particular when each send fares as before, or no send of the first cycle failed. |
| SelfHealing.SortFilter | backend/dht/routing.py:46-47 | A stable sort commutes with leaving elements out. |
| Framing.HeaderRoundTrip | backend/network/connection.py:35-43 | The four header bytes give back the length. |
| Framing.HeadersInOrder | backend/network/connection.py:35-43 | Headers are big-endian: byte by byte from the left they are in the order of the lengths. |
| Framing.PeerConnection.Send | backend/network/connection.py:33-38 | Appends one frame, or nothing when the length does not fit the header. |
| Framing.PeerConnection.Receive | backend/network/connection.py:40-50 | One message or none, and what is left unread. |
| Framing.PeerConnection.ReceiveLoop | backend/network/connection.py:140-145 | The messages up to the first none. |
| Framing.SendAll | backend/network/connection.py:33-38 | Sending messages one after the other writes their frames. |
| Framing.FramesParse | backend/network/connection.py:33-50 | Sent messages are received as they were, whatever their bytes, up to the first one over STREAM_LIMIT. |
| Framing.ExactlyTheMessages | backend/network/connection.py:33-50 | The receiver gets exactly the sent sequence if and only if every message is within STREAM_LIMIT. |

## Left out

- FastAPI, HTTP, WebSocket, UDP discovery, HMAC, SQLite, logging, configuration and the frontend: only the state changes the handlers make are modelled.
- The libraries behind the contracts (AES-GCM, PBKDF2, SHA-256, zstd, SealedBox, zfec, Shamir, msgpack, JSON, process pools).
- The multi-node protocols and the download workers as heap objects: they are value state machines, so aliasing between Python objects is modelled by object identities in the state, not by references.
- Several downloads at once: the model follows one file hash; others share only the chunk store.
- The bookkeeping of `replicate_chunks` and `replicate_shards` around the choice of targets.
- Failures of the .resume file writes and deletes themselves, and torn writes.
- Sliding-window liveness: exhausted retries never set done, and acknowledgements send nothing further. The receiver is the one the module describes, which acknowledges; the shipped STORE_CHUNK handler does not.
- Agreement of both sides on an accepted thread: it does not hold, see above. The exact condition is for an invite that runs undisturbed; that disagreement lasts is proved for every interleaving.
- Encrypted files of `chunk_file_streaming`: a fresh salt per chunk, which the readers that derive one key do not handle.
- Repeated threshold uploads of the same plaintext to one holder: shares are looked up by file hash alone, so the quorum result assumes no earlier row for the file at its holders.
- "Losing a peer costs at most one shard per chunk": each shard indexes its own XOR ordering, so this does not hold.
- Floating-point rounding: `math.ceil(size / k)` is exact integer division rounded up, and the quota target is computed over the reals.
- Spellings that Python's `int(s, 16)` accepts besides hex digits (sign, prefix, underscores, blanks).
- Stripping of blanks from ids in request bodies, and the hex encoding of sealed shares.
- Changes to the routing table by other tasks while a healing cycle awaits, and `remove_peer_from_all`.
- What the store holds when `pipeline_chunk_and_store` fails half-way; its failure itself is modelled.
- Heartbeats, health scores, heuristic peer scores (their order is a parameter), audit, benchmark, SDK client, and the field-by-field manifest mapping.
- DownloadCalls.CarelessCallAlone: about calls on a tracked download; a start when none is tracked is covered by DownloadLosses.ClearedDownloadBreaks.
- Erasure.ContractIsMet: the instance works over unbounded integers, as the byte strings of the model do, not over GF(256).
- Threshold.ContractIsMet: the instance works over unbounded integers, not over GF(2^128).
