# A verified model of Prysm's stateful algorithms

Prysm is an Ethereum consensus client. This project models, in Dafny, the parts of it in which an efficient, stateful
implementation stands for a simple specification, and proves the one against the other: its keyed multilock, its
catch-up on deposit-contract logs, its two data-availability waits, the search for an execution block by time, the
cached square root, the assembly of chains for fork choice, the matching of payload envelopes, the attestation and
sync-committee caches, the lazily persistent stores, the reconstruction of blinded blocks and the light-client order.

Concurrent code (`MultilockProtocol`, `BlobNotifier`, `ColumnWait`, `SyncCommitteeProtocol`) is a transition system
whose actions are the atomic steps of the goroutines; theorems speak of every state that any sequence of enabled
actions leads to. Code that updates state in place is a class, or a method with loops, whose contract ties the new
state to a function of the old one or states the promise outright; lemmas then prove what that function achieves.

The database, the execution client, signature and proof verification, clocks and contexts are oracles: functions of
the request and its ordinal, free to fail whenever they like unless a theorem asks for more. A signature is the
multiset of its signers. 64-bit wrap-around is written out where values can reach it.

Where the code does not meet a promise, the code is kept as it is and the exact condition is proved:

- The cached square root panics for one cached root and balance (`PanickingCalls`, `CachedSquareRoot`,
  `RunPanicsIff`).
- A catch-up retried after an undecodable log can announce genesis too early (`RetryAnnouncesTooEarly`,
  `ChainStartIff`). The deposits themselves survive every failure with an honest client
  (`CatchUpResumes`, `CompleteAfterAnyFailures`).
- A catch-up whose start block is the follow height returns nil without a round, so without that block's deposits
  (`StartAtFollowMisses`, `ExactlyOnceIff`). The live pass then starts one block later and loses them
  (`SkippedForGood`, `ScannedAfterIff`). A client that leaves logs out of an answer has the same effect
  (`OmittedLogsStayMissing`).
- Columns outside custody that arrive after the first summary do not count towards the threshold
  (`OthersAreNotCounted`, `ReturnedIffEnough`).
- Envelopes against block order are looked up but not all joined (`OutOfOrder`, `AgreeIff`).
- A single-bit attestation longer than the running aggregate adds a signer without a bit (`OverflowingRun`,
  `AddKeepsInvIff`).
- Leading columns with the zero root count as not stored (`LeadingZeroKept`, `FilterIff`).
- Forwarded finality updates need not rise, and one finalized slot can be forwarded any number of times, even on one
  chain, since a new update is compared with the one saved last and not with those forwarded (`ForwardedTimes`,
  `LoweredRun`, `ForwardedRiseIff`, `AtMostTwiceIff`).
- The doc comment of `BlockByTimestamp` promises an order of twenty calls; the linear search after the estimate can
  take any number, even on a regular chain (`LongColdSearch`). The promise is kept where the estimate settles within
  the time buffer and blocks come no faster than expected (`PromiseKept`), and neither condition can be left out
  (`LongSearch`, `FastSearch`). On a regular chain the first block's time is the only target that breaks it
  (`RegularSearch`).
- A catch-up against a client that serves single blocks only never ends, since a window of size zero does not move on
  (`CatchUpEndsIff`).
- A live pass after a catch-up that failed can announce genesis too early as well (`LiveStartIff`); one after a failed
  live pass cannot (`LiveTracks`).

## Files

| file | source it follows |
|---|---|
| `Multilock.dfy`, `MultilockProtocol.dfy`, `MultilockClean.dfy` | `async/multilock.go` |
| `DepositLogs.dfy`, `DepositCatchUp.dfy`, `DepositRetries.dfy`, `DepositProgress.dfy`, `DepositLive.dfy`, `DepositLiveStart.dfy` | `beacon-chain/execution/log_processing.go` |
| `BlobNotifier.dfy`, `ColumnWait.dfy` | `beacon-chain/blockchain/service.go`, `receive_blob.go`, `process_block.go` |
| `BlockSearch.dfy` | `beacon-chain/execution/block_reader.go`, `block_cache.go` |
| `SquareRoot.dfy` | `math/math_helper.go` |
| `ForkChoiceFill.dfy` | `beacon-chain/blockchain/process_block_helpers.go`, `setup_forkchoice.go` |
| `BatchEnvelopes.dfy` | `beacon-chain/blockchain/process_block.go` |
| `AttestationCache.dfy` | `beacon-chain/cache/attestation.go`, pruning in `process_block.go` |
| `ColumnStore.dfy`, `BlobStore.dfy` | `beacon-chain/das` |
| `PayloadBodies.dfy` | `beacon-chain/execution/payload_body.go` |
| `LightClientOrder.dfy` | `beacon-chain/light-client/lightclient.go`, `store.go` |
| `SyncCommitteeIndex.dfy` | `beacon-chain/cache/sync_committee.go` |
| `SetFacts.dfy`, `Wrappers.dfy` | cardinalities and the optional value used by the above |

## Model

| member | source | states |
|---|---|---|
| `MultilockKeys.Unique` | async/multilock.go:127-141 | The result has the same keys, each once. |
| `MultilockKeys.NewMultilock` | async/multilock.go:78-90 | No keys give no lock; otherwise the lock carries exactly the given keys, without repeats and strictly increasing. |
| `MultilockProtocol.StepKeepsInv` | async/multilock.go:37-124 | Every action of Lock, Unlock, Clean and getChan keeps the invariant: each open channel is the table's channel for its key and is full, in the hands of Clean, or held by exactly one lock; a closed channel is empty and leaves the table with the Clean that closed it. |
| `MultilockProtocol.ReceiveKeepsInv` | async/multilock.go:37-52 | A receive keeps the invariant, with a token (the key is acquired) or from a closed channel (getChan is called again). |
| `MultilockProtocol.FetchKeepsInv` | async/multilock.go:115-124 | getChan keeps the invariant, creating a full channel for a key that Clean has dropped. |
| `MultilockProtocol.ReleaseKeepsInv` | async/multilock.go:56-68 | Giving a token back keeps the invariant. |
| `MultilockProtocol.VisitKeepsInv` | async/multilock.go:98-103 | Clean's non-blocking receive keeps the invariant; what it achieves is stated by CleanAlone and FullIsDropped. |
| `MultilockProtocol.CloseKeepsInv` | async/multilock.go:93-112 | Closing a drained channel keeps the invariant although waiters still refer to it. |
| `MultilockProtocol.DeleteKeepsInv` | async/multilock.go:93-112 | Dropping a closed channel from the table keeps the invariant. |
| `MultilockProtocol.MutualExclusion` | async/multilock.go:37-124 | In every state of every interleaving at most one lock holds a key, across any number of channel closings and recreations. |
| `MultilockProtocol.LockedHoldsAllKeys` | async/multilock.go:37-68 | Between the return of Lock and the start of Unlock a lock holds exactly its keys. |
| `MultilockProtocol.NoPanicNoBlock` | async/multilock.go:56-112 | Unlock never sends on a closed or a full channel, Clean never closes a channel twice, and the sends and receives on a lock's own buffers do not block. |
| `MultilockProtocol.WaitsUpwards` | async/multilock.go:37-52 | A blocked lock waits for a key greater than every key it holds. |
| `MultilockProtocol.BlockedReason` | async/multilock.go:37-124 | A blocked lock waits for a key some lock holds, unless Clean is about to close the channel. |
| `MultilockProtocol.NoWaitCycle` | async/multilock.go:37-90 | No chain of waits, of any length, comes back to where it began. |
| `MultilockProtocol.FollowHolders` | async/multilock.go:37-90 | Following holders from a blocked lock reaches a lock that is not blocked, unless Clean can move. |
| `MultilockProtocol.DeadlockFree` | async/multilock.go:37-124 | While any lock is in use, some goroutine inside the package, or the owner of an acquired lock, can move. |
| `MultilockClean.CleanAlone` | async/multilock.go:93-112 | From every reachable state, a Clean that runs undisturbed leaves in the table exactly the keys that some lock holds, with their channels, and the channels of all others closed. |
| `MultilockClean.FullIsDropped` | async/multilock.go:93-112 | Whatever other goroutines do meanwhile, a key whose channel is full when Clean visits it is gone from the table, and the channel closed, when that Clean ends. |
| `MultilockClean.CleanCompletes` | async/multilock.go:93-112 | Clean can always run to its end by itself. |
| `MultilockClean.OutsideClean` | async/multilock.go:93-112 | Clean can be called from outside whenever the mutex is free, and can then leave exactly the keys in use. |
| `MultilockClean.AcquiresIff` | async/multilock.go:37-52 | With no Clean under way, an idle lock's Lock call can go through by itself exactly if no other lock holds one of its keys, whatever channels were closed and dropped before. |
| `MultilockClean.UnlockAlone` | async/multilock.go:56-68 | An Unlock can run to its end by itself, with its lock idle and the table then holding exactly the keys that other locks hold. |
| `MultilockClean.LeavesNothing` | async/multilock.go:37-112 | From the start, a lock over any keys can be made, acquired and released by itself, and the table is empty again. |
| `DepositCatchUp.ProcessLogKeeps` | beacon-chain/execution/log_processing.go:93-152 | Any log whatsoever, processed or refused, leaves the trie's size at the last index plus one, removes and reorders no deposit, and from a log that is not invented keeps the trie a prefix of the contract's deposits. |
| `DepositCatchUp.MismatchRefused` | beacon-chain/execution/log_processing.go:145-148 | Where the trie's size is not the last index plus one, a new deposit is refused with its index taken, and a short trie stays short. |
| `DepositCatchUp.TakeLog` | beacon-chain/execution/log_processing.go:113-152 | A log of the chain that comes after all those before it is in the trie afterwards, once: appended if it is the next deposit, skipped if it is in already. |
| `DepositService.Service.CheckHeaderRangeInPlace` | beacon-chain/execution/log_processing.go:521-564 | The header loop, with its re-requests, is the function that checks every block of the range in order. |
| `DepositService.Service.ScanLogsInPlace` | beacon-chain/execution/log_processing.go:423-441 | The loop over a batch's logs is the function on states. |
| `DepositService.Service.ProcessBlockInBatch` | beacon-chain/execution/log_processing.go:361-458 | One batch, with shrinking on too much data and growing on success, is the function on states; RefusalsHalve, AnswersGrow and CatchUpEndsIff say what that does. |
| `DepositService.Service.ProcessPastLogs` | beacon-chain/execution/log_processing.go:291-328 | The catch-up loop is the function on states. |
| `DepositCatchUp.CatchUpKeeps` | beacon-chain/execution/log_processing.go:291-458 | Whatever the client answers, and also after an error: the trie's size is the last index plus one, no deposit is removed or reordered, chain start is announced at most once, and a client that invents nothing leaves a prefix of the contract's deposits. |
| `DepositCatchUp.CatchUpTakes` | beacon-chain/execution/log_processing.go:291-458 | From a state with all deposits before its start block, which CatchUpResumes shows every call to leave, a nil return has put every deposit up to the follow height into the trie, once and in order, for any batch sizes, rejections and re-scans of shared blocks; or, with a start block not below the follow height, has made no round and only noted that block. |
| `DepositCatchUp.ShortCatchUp` | beacon-chain/execution/log_processing.go:291-458 | A catch-up that starts short of the deposits before its start block never adds one. |
| `DepositCatchUp.ExactlyOnceIff` | beacon-chain/execution/log_processing.go:291-458 | After a nil return the trie is complete up to the follow height if and only if the catch-up started with all deposits of the blocks before its start block or, where that is not below the follow height and no round is made, with those of the follow height's block too. |
| `DepositRetries.ScanSettles` | beacon-chain/execution/log_processing.go:423-441 | Wherever the scan of a window stops, at an undecodable log, a failed header request or a failed save, the last requested block is such that all deposits before it are in. |
| `DepositRetries.CatchUpResumes` | beacon-chain/execution/log_processing.go:291-458 | Success or failure, the next catch-up starts with all deposits of the blocks before its start block. |
| `DepositRetries.CallsResume` | beacon-chain/execution/log_processing.go:291-458 | So it is after any sequence of catch-ups with honest clients. |
| `DepositRetries.CompleteAfterAnyFailures` | beacon-chain/execution/log_processing.go:291-458 | From a fresh start and after any catch-ups, failed or not, one that returns nil leaves the contract's deposits in the trie, in order, and complete up to its follow height exactly if it did not start at that height without that block's deposits. |
| `DepositRetries.StartAtFollowMisses` | beacon-chain/execution/log_processing.go:316-328 | A fresh service whose start block is the follow height returns nil without that block's deposit. |
| `DepositRetries.OmittedLogsStayMissing` | beacon-chain/execution/log_processing.go:113-132 | A client that once leaves a block's logs out of an answer leaves the service short, and no later catch-up with an honest client adds a deposit. |
| `DepositProgress.LogAcceptedIff` | beacon-chain/execution/log_processing.go:93-152 | A log of the chain that comes after all those before it is refused exactly if a periodic save is due and fails; a save is due whenever the last index is a multiple of a thousand. |
| `DepositProgress.BatchOk` | beacon-chain/execution/log_processing.go:361-458 | A true answer, headers that arrive and saves that succeed make a batch move on to its window's end, for one header request before chain start and none after. |
| `DepositProgress.RefusalsHalve` | beacon-chain/execution/log_processing.go:397-411 | Refusals in a row halve the window each time and change nothing else; a refusal at size zero is an error. |
| `DepositProgress.OtherErrorEnds` | beacon-chain/execution/log_processing.go:397-411 | Any other error ends the catch-up at once, also after refusals, and leaves the service as it was. |
| `DepositProgress.AnswersGrow` | beacon-chain/execution/log_processing.go:448-458 | Answers in a row grow the window by the additive step up to the limit, and each moves on by the window's size at the time, up to the follow height. |
| `DepositProgress.AfterIs` | beacon-chain/execution/log_processing.go:316-321 | The catch-up loop is its rounds. |
| `DepositProgress.CatchUpEndsIff` | beacon-chain/execution/log_processing.go:291-458 | Against a client that refuses windows wider than w, with headers that arrive and saves that succeed, a catch-up with anything to do returns nil exactly if w and the request limit are positive, within ceil(gap / stride) * (1 + halvings) client calls, where the stride is the smaller of the limit and (w + 1) / 2 and the halvings are those that bring the limit down to w; otherwise it never returns nil. |
| `DepositProgress.RoundsCover` | beacon-chain/execution/log_processing.go:316-321 | The number of strides in that bound is the least that covers the gap. |
| `DepositProgress.AsksWithin` | beacon-chain/execution/log_processing.go:291-321 | A catch-up asks for no block before the deployment block, before the last requested block, or past the follow height. |
| `DepositProgress.FailedLogResets` | beacon-chain/execution/log_processing.go:423-441 | A log that fails leaves the last requested block where it was when its window began. |
| `DepositProgress.ScanNotes` | beacon-chain/execution/log_processing.go:423-441 | A successful scan notes the last block with logs before the final one, or the window's first; with no later block it notes nothing. |
| `DepositService.Service.ProcessEth1Block` | beacon-chain/execution/log_processing.go:62-89 | The live loop over one block's logs, and its chain-start check, is the function on states; LiveTracks and LiveSucceedsIff say what that does. |
| `DepositService.Service.RequestBatchedHeadersAndLogs` | beacon-chain/execution/log_processing.go:462-491 | The live loop over blocks, or the fall-back to a catch-up, is the function on states. |
| `DepositLive.OthersIgnored` | beacon-chain/execution/log_processing.go:75-82 | A log of another block in a block's answer makes no difference. |
| `DepositLive.CatchUpScans` | beacon-chain/execution/log_processing.go:291-458 | A catch-up that makes rounds and succeeds has scanned the block it notes; one that fails leaves a scanned block scanned; one without a round notes a scanned block exactly if it was one. |
| `DepositLive.LiveKeeps` | beacon-chain/execution/log_processing.go:475-488 | A live pass from a scanned block keeps the last requested block scanned wherever it stops, and on success has every deposit up to the follow height. |
| `DepositLive.LiveShort` | beacon-chain/execution/log_processing.go:475-488 | A live pass from a block that was not scanned adds no deposit and leaves the last requested block unscanned. |
| `DepositLive.PollKeeps` | beacon-chain/execution/log_processing.go:462-491 | A poll, by a live pass or by a catch-up, keeps the last requested block scanned, and on success has every deposit up to the follow height. |
| `DepositLive.ScannedAfterIff` | beacon-chain/execution/log_processing.go:291-491 | After any catch-ups, a first success and any polls, the last requested block has been scanned if that success was not one without a round at a block whose deposits were missing; if it was, the block has not been, and no deposit is added, as long as no poll falls back to a catch-up. |
| `DepositLive.SkippedForGood` | beacon-chain/execution/log_processing.go:475-488 | The deposit missed at the follow height is passed over by one live pass, and no later successful catch-up takes it in. |
| `DepositLiveStart.LiveTracks` | beacon-chain/execution/log_processing.go:62-89 | Whether a live pass succeeds or stops, every block it has noted was checked against exactly the deposits up to it, and genesis is announced at the first one ready, with those deposits, or not at all; also after passes that failed in the middle of a block. |
| `DepositLiveStart.LiveFromExact` | beacon-chain/execution/log_processing.go:475-488 | In particular from exactly the deposits up to the last requested block. |
| `DepositLiveStart.LiveStartIff` | beacon-chain/execution/log_processing.go:499-509 | A live pass is right about chain start for every genesis condition exactly when the service holds no deposit from beyond the block after its last requested one. |
| `DepositLiveStart.PollTracks` | beacon-chain/execution/log_processing.go:462-491 | One poll, by a live pass or by a catch-up that succeeds from exactly the deposits up to its start block, keeps this. |
| `DepositLiveStart.PollsTrack` | beacon-chain/execution/log_processing.go:462-491 | So does any sequence of polls, failing ones included, as long as no poll falls back to a catch-up that fails or that starts with deposits from beyond its start block. |
| `DepositLiveStart.GenesisOverLife` | beacon-chain/execution/log_processing.go:291-509 | From a fresh start, over a first successful catch-up and such polls, genesis is announced at the first block from the deployment block on that is ready with exactly the deposits up to it, or not at all. |
| `DepositLiveStart.LiveSucceedsIff` | beacon-chain/execution/log_processing.go:62-89 | Against a client that answers for single blocks, with saves that succeed, a live pass returns nil if every block's hash can be retrieved and, before chain start, every block's time; and it needs every hash, and every time up to chain start. |
| `DepositLiveStart.PollNeeds` | beacon-chain/execution/log_processing.go:468-474 | A gap of at most fifty blocks is left to the live pass, a larger one to a catch-up. |
| `DepositCatchUp.CatchUpTracks` | beacon-chain/execution/log_processing.go:423-448 | A catch-up that makes rounds: chain start fires at the first block of the range that is ready with exactly the deposits made up to it, with those deposits, or not at all. |
| `DepositCatchUp.StartBlockFires` | beacon-chain/execution/log_processing.go:521-564 | A service with as many deposits as genesis needs announces its start block, wherever those deposits were made. |
| `DepositCatchUp.ChainStartIff` | beacon-chain/execution/log_processing.go:423-448 | Chain start is right for every genesis condition exactly when the service holds no deposit from beyond its start block; a catch-up without a round is wrong exactly if its one block is ready. |
| `DepositCatchUp.SuccessRestoresConditions` | beacon-chain/execution/log_processing.go:291-328 | After a success the next catch-up meets both starting conditions, with exactly the deposits up to the follow height if rounds were made. |
| `DepositCatchUp.FirstCallFails` | beacon-chain/execution/log_processing.go:423-441 | A concrete catch-up that an undecodable log stops half way through a block. |
| `DepositCatchUp.RetryAnnouncesTooEarly` | beacon-chain/execution/log_processing.go:175-176 | Its retry announces a block before the deposits, with half of the next block's deposits. |
| `DepositCatchUp.ZeroWindowNeverDone` | beacon-chain/execution/log_processing.go:361-458 | A window shrunk to zero with an additive step of zero is never left. |
| `DepositCatchUp.AnswerAdvancesIff` | beacon-chain/execution/log_processing.go:361-458 | An answered batch moves on exactly when its window is not of size zero. |
| `BlobNotifier.StepKeepsInv` | beacon-chain/blockchain/service.go:115-162 | Every action of writers, waiter and notifier keeps the invariant: each channel receives each index at most once, everything announced is stored, and every index the waiter misses is unannounced, on its way, or in the channel it reads. |
| `BlobNotifier.SendNeverBlocks` | beacon-chain/blockchain/service.go:115-162 | In every interleaving a send has room in its channel. |
| `BlobNotifier.AvailableIsStored` | beacon-chain/blockchain/process_block.go:1091-1165 | A nil result means that every committed index is stored. |
| `BlobNotifier.NoLostWakeup` | beacon-chain/blockchain/process_block.go:1113-1164 | A missing index that is stored and fully notified is in the channel the waiter reads, whatever fell between summary and forRoot and whatever a timed-out wait left behind. |
| `BlobNotifier.EmptyChannelMeansUnfinished` | beacon-chain/blockchain/receive_blob.go:17-24 | A waiter with an empty channel misses an index that is not stored or whose writer is not through. |
| `BlobNotifier.WaiterFinishes` | beacon-chain/blockchain/process_block.go:1113-1164 | Once the channel holds all that is missing, draining it ends the wait. |
| `BlobNotifier.AvailableAtOnceIff` | beacon-chain/blockchain/process_block.go:1091-1125 | A summary ends the wait at once exactly if every index with a commitment is stored. |
| `BlobNotifier.StoredEndsWait` | beacon-chain/blockchain/process_block.go:1113-1164 | Once every committed index is stored and its writers are through, reading alone ends the wait. |
| `BlobNotifier.WaitCanEnd` | beacon-chain/blockchain/process_block.go:1113-1164 | From every reachable state of a wait, the arrival of its blobs can end it, and then neither a channel nor a seen index is left for the root. |
| `BlobNotifier.CallCanSucceed` | beacon-chain/blockchain/process_block.go:1091-1165 | A call for any commitments can be made and can succeed in every reachable state in which no earlier one is about to ask for its channel or to clean up, also after one given up while it reads. |
| `BlobNotifier.WritersConserved` | beacon-chain/blockchain/receive_blob.go:17-24 | Over any run, every write that began was saved, failed, or has yet to do either, and every save was announced or has yet to be. |
| `BlobNotifier.ChannelStays` | beacon-chain/blockchain/service.go:115-162 | Only a wait that ends takes a root's channel away; one that is given up leaves it, and what was seen. |
| `ColumnWait.HearInPlace` | beacon-chain/blockchain/process_block.go:1036-1063 | The loop over one notification is the function on counter and missing set. |
| `ColumnWait.HearRemoves` | beacon-chain/blockchain/process_block.go:1036-1063 | Heard indices leave the missing set, and only they do. |
| `ColumnWait.HearUnfinished` | beacon-chain/blockchain/process_block.go:1036-1063 | A pass that does not end the wait has counted each index that left the missing set once, stays below the threshold, and still misses something. |
| `ColumnWait.HearFinished` | beacon-chain/blockchain/process_block.go:1036-1063 | A pass that ends the wait misses nothing more, or has just reached the threshold with an index not heard of before. |
| `ColumnWait.StepKeepsInv` | beacon-chain/blockchain/process_block.go:957-1087 | Every action of the reader and of the writers keeps the accounting of counted, missing and announced columns. |
| `ColumnWait.ReturnedIsAvailable` | beacon-chain/blockchain/process_block.go:957-1087 | A nil result means that the store holds all custody columns, or at least half of all columns. |
| `ColumnWait.ReturnedIffEnough` | beacon-chain/blockchain/process_block.go:957-1087 | Once all notifications are read, the wait has returned if and only if the store passes the reader's test; in particular whenever custody is stored. |
| `ColumnWait.OthersAreNotCounted` | beacon-chain/blockchain/process_block.go:1036-1063 | A run in which the store holds enough columns and the wait goes on: columns outside custody that come after the first summary are not counted. |
| `ColumnWait.OversizedCustody` | beacon-chain/blockchain/process_block.go:870-891 | With more custody columns than there are columns, a call never waits, and returns nil only if the first count finds enough. |
| `ColumnWait.WaitCanEnd` | beacon-chain/blockchain/process_block.go:957-1087 | From every reachable state of a wait, the arrival of the missing columns can end it. |
| `ColumnWait.CancelledNeverReturns` | beacon-chain/blockchain/process_block.go:1064-1087 | A wait can be cancelled at any time, and then returns an error, whatever arrives afterwards. |
| `ColumnWait.OneSlot` | beacon-chain/db/filesystem/data_column.go:428-433 | The reader's channel never holds more than one event. |
| `BlockSearch.Service.BlockByTimestamp` | beacon-chain/execution/block_reader.go:100-162 | The header found is that of the greatest height with time at most the target; a target from genesis time to latest time is found unless the provider or the context fails; later ones are refused without a request; from genesis time on no request goes above the known head; the number of lookups is exactly the guesses made plus the distance from where they settle to the block found plus one or three; requests are at most that many, and exactly that many with an empty cache and no guess. |
| `BlockSearch.Service.FindMaxTargetBlock` | beacon-chain/execution/block_reader.go:166-179 | The downward search finds the greatest height with time at most the target, requests nothing above its start, and fails with a missing header exactly for targets before genesis. |
| `BlockSearch.Service.FindMinTargetBlock` | beacon-chain/execution/block_reader.go:183-201 | The upward search finds the greatest height with time at most the target and requests nothing above the head. |
| `BlockSearch.Service.RetrieveHeaderInfo` | beacon-chain/execution/block_reader.go:203-223 | A header comes from the cache or else from one request, is the chain's, and is missing only beyond the chain. |
| `BlockSearch.Service.AddHeader` | beacon-chain/execution/block_cache.go:135-164 | A height not yet cached is added, the oldest headers making room, and only headers of the chain are kept. |
| `BlockSearch.NextGuess` | beacon-chain/execution/block_reader.go:113-150 | A guess never exceeds the head, although sums and differences wrap at 64 bits. |
| `BlockSearch.GuessMovesTowards` | beacon-chain/execution/block_reader.go:113-150 | While no sum wraps, a guess lies at least five blocks further on the target's side, and there is none within the buffer. |
| `BlockSearch.Service.SettleEstimate` | beacon-chain/execution/block_reader.go:113-150 | The estimate loop settles where the guesses do, with cursor and estimate in agreement, one lookup for each guess, and no request above the head. |
| `BlockSearch.NearIsShort` | beacon-chain/execution/block_reader.go:166-201 | From an estimate within the time buffer, on a chain whose blocks come no faster than expected, the linear search takes at most eight lookups. |
| `BlockSearch.PromiseKept` | beacon-chain/execution/block_reader.go:97-162 | Then the whole search takes at most eighteen. |
| `BlockSearch.GuessDownIs` | beacon-chain/execution/block_reader.go:127-140 | While no sum wraps, the guess from a block later than the target goes back by the gap divided by the expected block time, unless that passes the first block. |
| `BlockSearch.RegularSearch` | beacon-chain/execution/block_reader.go:97-162 | On a chain with regular blocks every target but the first block's time is found within eight lookups, and within three if it is out of the buffer of the head. |
| `BlockSearch.LongSearch` | beacon-chain/execution/block_reader.go:133-140 | The first block's time is the exception: the guess is infeasible, none is made, and the search takes n + 1 lookups on n blocks, for every n and every block time. |
| `BlockSearch.FastSearch` | beacon-chain/execution/block_reader.go:141-145 | A target within the buffer on a chain with a block every second: 71 lookups. |
| `BlockSearch.LongColdSearch` | beacon-chain/execution/block_reader.go:97-162 | On the regular chain a search for the first block with an empty cache makes n + 1 requests. |
| `BlockSearch.LastUpToUnique` | beacon-chain/execution/block_reader.go:97-99 | There is at most one block to find. |
| `BlockSearch.LastUpToExists` | beacon-chain/execution/block_reader.go:97-99 | There is a block to find exactly when the chain starts no later than the target. |
| `SquareRoot.SquareRootCache.CachedSquareRoot` | math/math_helper.go:56-74 | From any sound cache the answer is the integer square root, and the cache stays sound, exactly when the cached root and balance are not 1 and 2^64-1; then it panics, and a panicked cache is never repaired. |
| `SquareRoot.IsqrtIsRoot` | math/math_helper.go:56-74 | The specification's root satisfies r*r <= b < (r+1)*(r+1). |
| `SquareRoot.RootUnique` | math/math_helper.go:56-74 | Only one number does. |
| `SquareRoot.InitialSound` | math/math_helper.go:33-37 | The initial pair is sound. |
| `SquareRoot.NewtonAbove` | math/math_helper.go:56-74 | From any positive start one Newton step lands at or above the root. |
| `SquareRoot.NewtonStops` | math/math_helper.go:56-74 | The loop's exit test holds of no number above the root but of the root. |
| `SquareRoot.SumFits` | math/math_helper.go:56-74 | The 64-bit sum of the step wraps for one pair of arguments only. |
| `SquareRoot.PanickingCalls` | math/math_helper.go:56-74 | The calls 1 and then 2^64-1 panic. |
| `SquareRoot.RunPanicsIff` | math/math_helper.go:56-74 | From start-up a sequence of calls panics exactly when some call asks for 2^64-1 and the last non-zero balance before it was 1, 2 or 3. |
| `ForkChoiceFill.FillInForkChoiceMissingBlocks` | beacon-chain/blockchain/process_block_helpers.go:374-448 | The loop and the reversal are the recursive walk; slots strictly decrease, so it ends. |
| `ForkChoiceFill.FillIsChain` | beacon-chain/blockchain/process_block_helpers.go:374-448 | What is inserted is a parent-linked chain of stored blocks after the finalized slot, absent from fork choice, from a child of the finalized root or of a known node up to the incoming block's parent; nothing is inserted exactly when that parent is not wanted. |
| `ForkChoiceFill.ChainRises` | beacon-chain/blockchain/process_block_helpers.go:374-448 | Slots rise along the chain, so no block is inserted twice. |
| `ForkChoiceFill.FillFlags` | beacon-chain/blockchain/process_block_helpers.go:374-448 | Each inserted flag is what the startup rule says of the block and its successor, the incoming block being the last one's. |
| `ForkChoiceFill.ResolveChainPayloadStatus` | beacon-chain/blockchain/setup_forkchoice.go:163-182 | The flag of a block is set exactly when it was set or the next block's bid builds on its payload; blocks are untouched. |
| `ForkChoiceFill.BuildForkchoiceChain` | beacon-chain/blockchain/setup_forkchoice.go:95-128 | The startup loop and its reversal are the recursive form. |
| `ForkChoiceFill.FillMatchesStartup` | beacon-chain/blockchain/setup_forkchoice.go:95-182 | Where fork choice holds the finalized root only, startup from a block builds and resolves exactly the nodes that are filled in for it, flags included, and the block. |
| `ForkChoiceFill.StartupIsFilledIff` | beacon-chain/blockchain/setup_forkchoice.go:95-128 | Where startup succeeds, filling in gives the same blocks exactly if every block below the head is after the finalized epoch's first slot and every bid that is asked for is there. |
| `ForkChoiceFill.AncestorIsFirst` | beacon-chain/blockchain/process_block_helpers.go:349-370 | The ancestor is the first block up the parent links that is not after the slot; there is none exactly when the links leave the database first. |
| `ForkChoiceFill.AncestorOfAncestor` | beacon-chain/blockchain/process_block_helpers.go:349-370 | Going up in two steps is going up in one. |
| `ForkChoiceFill.FillSucceedsIff` | beacon-chain/blockchain/process_block_helpers.go:374-448 | With checkpoints in order and any nodes known, filling in succeeds exactly if every bid asked for on the way up is there and, where there is anything to fill in, the first root up the links that is known, not stored or not after the finalized slot is the finalized root or known; every block below it is inserted, and the two kinds of failure are told apart. |
| `ForkChoiceFill.WalkFailsAt` | beacon-chain/blockchain/process_block_helpers.go:403-419 | A missing bid is reported for the first block on the way up that lacks its own or its child's, the child's being asked for first. |
| `ForkChoiceFill.BuildSucceedsIff` | beacon-chain/blockchain/setup_forkchoice.go:95-128 | Startup succeeds exactly if the links lead to the finalized root through stored blocks of its epoch or later, and gives all of them and the head; a missing block and an earlier one are told apart. |
| `BatchEnvelopes.JoinEnvelopes` | beacon-chain/blockchain/process_block.go:210-305 | The two-pointer loop pairs and joins what the walk function does, the applied parent envelope first. |
| `BatchEnvelopes.WalkShape` | beacon-chain/blockchain/process_block.go:210-305 | Paired blocks rise, paired envelopes are consecutive, and their roots agree; so no envelope is joined twice. |
| `BatchEnvelopes.AllJoinedIf` | beacon-chain/blockchain/process_block.go:210-305 | Every envelope is joined, once, if those after the parent's come in block order. |
| `BatchEnvelopes.AllJoinedOnlyIf` | beacon-chain/blockchain/process_block.go:210-305 | And only if they do. |
| `BatchEnvelopes.FirstJoinedIff` | beacon-chain/blockchain/process_block.go:210-305 | The first envelope is joined exactly if the first block is a Gloas block that builds on its payload, or some block has its root; otherwise none is joined. |
| `BatchEnvelopes.IndexEnvelopes` | beacon-chain/blockchain/process_block.go:373-380 | The map holds, for each root, the last envelope that names it. |
| `BatchEnvelopes.LookUpEnvelopes` | beacon-chain/blockchain/process_block.go:373-416 | The lookup loop uses the last envelope of each Gloas block. |
| `BatchEnvelopes.PairsAgree` | beacon-chain/blockchain/process_block.go:210-416 | For distinct blocks, envelopes of Gloas blocks in block order and an applied envelope foreign to the batch, the walk pairs exactly what the lookup uses and every envelope is joined once. |
| `BatchEnvelopes.WalkIsLookup` | beacon-chain/blockchain/process_block.go:210-416 | They agree if the envelopes that name Gloas blocks come first, after an applied one and in block order, and the next envelope names no block still to come. |
| `BatchEnvelopes.AgreeIff` | beacon-chain/blockchain/process_block.go:210-416 | For distinct blocks, of any fork, and distinct envelopes, they agree exactly then. |
| `BatchEnvelopes.OutOfOrder` | beacon-chain/blockchain/process_block.go:210-416 | Two envelopes against block order: the lookup uses both, the walk joins one. |
| `AttestationCache.Cache.Add` | beacon-chain/cache/attestation.go:56-111 | The cache becomes what the functional form gives: new group, appended aggregate, or bit absorbed by the running aggregate. |
| `AttestationCache.AddKeepsInvIff` | beacon-chain/cache/attestation.go:56-111 | Adding keeps every group non-empty and every signature the aggregate of its bits' signers, each once, exactly when a single bit has room in the running aggregate. |
| `AttestationCache.OverflowingRun` | beacon-chain/cache/attestation.go:56-111 | From the empty cache, a one-bit attestation past a shorter running aggregate leaves a signer without a bit. |
| `AttestationCache.AddInPlace` | beacon-chain/cache/attestation.go:56-111 | Attestations keep their places: only the first of a group can gain bits, none loses any, and what is new comes last. |
| `AttestationCache.RedundantAfterAddIff` | beacon-chain/cache/attestation.go:191-218 | An added attestation is reported redundant afterwards, except one without bits that found no group. |
| `AttestationCache.Compact` | beacon-chain/cache/attestation.go:153-165 | The in-place loop leaves the attestations that are not covered, in order, or, stopped by a length error, the part done shifted. |
| `AttestationCache.Cache.DeleteCovered` | beacon-chain/cache/attestation.go:138-172 | The cache becomes what the functional form gives; an error exactly when a bitlist of the group has another length. |
| `AttestationCache.KeepIs` | beacon-chain/cache/attestation.go:138-172 | The kept attestations are exactly those not covered, as often as before. |
| `AttestationCache.KeepInOrder` | beacon-chain/cache/attestation.go:138-172 | In the order they had. |
| `AttestationCache.ShiftedKeeps` | beacon-chain/cache/attestation.go:138-172 | A compaction stopped half way has lost covered attestations only. |
| `AttestationCache.DeleteKeepsInv` | beacon-chain/cache/attestation.go:138-172 | Deleting keeps the invariant, also when it fails half way. |
| `AttestationCache.DeleteExact` | beacon-chain/cache/attestation.go:138-172 | With one length per id, deleting removes exactly the covered attestations, of that id only. |
| `AttestationCache.Cache.PruneBefore` | beacon-chain/cache/attestation.go:175-187 | Groups before the slot go, others stay, and the number pruned and the number left add up. |
| `AttestationCache.Cache.Count` | beacon-chain/cache/attestation.go:126-135 | The count is the sum over all groups. |
| `AttestationCache.Cache.AggregateIsRedundant` | beacon-chain/cache/attestation.go:191-218 | The loop is the functional scan. |
| `AttestationCache.RedundantIff` | beacon-chain/cache/attestation.go:191-218 | With one length, redundant means that some attestation of the group has all the bits. |
| `AttestationCache.RedundantIs` | beacon-chain/cache/attestation.go:191-218 | In general the first attestation that has all the bits, or another length, decides: redundant, or an error. |
| `AttestationCache.RunKeeps` | beacon-chain/cache/attestation.go:56-187 | Over any sequence of operations: no empty group, every signature aggregates each set bit's signer once, every vote added and not asked to be removed since is still covered, and no vote is held that was not added since its slot was last pruned. |
| `AttestationCache.PruneCovered` | beacon-chain/blockchain/process_block.go:706-766 | The loop over committees deletes by each committee's part in turn, up to the first failure, and reports an error exactly if there is one. |
| `AttestationCache.PartsJoin` | beacon-chain/blockchain/process_block.go:706-766 | Splitting the combined bits by committee loses and invents none of them. |
| `AttestationCache.DeleteEachExact` | beacon-chain/blockchain/process_block.go:706-766 | Afterwards exactly the aggregates that some committee's part covers are gone. |
| `ColumnStore.Store.IsDataAvailable` | beacon-chain/das/availability_columns.go:74-115 | A nil result means that every retained block has readable commitments and, if it has any, that the custody columns are known and all on disk for it, through the batch or the bisection, each having been on disk or cached before; other blocks ask for nothing. With all of them at hand the result is nil if the batch verifies, or if a bisection that ends without an error of its own does; only cached columns are written; entries are dropped on success only. |
| `ColumnStore.Store.Gather` | beacon-chain/das/availability_columns.go:74-104 | Gathering succeeds exactly when every required column is on disk or cached; then what is gathered completes the disk, and all of it is cached. |
| `ColumnStore.Store.VerifyAndSave` | beacon-chain/das/availability_columns.go:138-151 | Success means that all the columns are on disk; nothing else is written either way. |
| `ColumnStore.Store.BisectVerification` | beacon-chain/das/availability_columns.go:175-206 | A clean verdict means that all the columns are on disk; an iteration that ends without an error of its own, over batches that verify, gives one. |
| `ColumnStore.ColumnsNotStored` | beacon-chain/das/availability_columns.go:209-244 | The in-place shift leaves the columns not seen on disk, in order. |
| `ColumnStore.FilterIff` | beacon-chain/das/availability_columns.go:209-244 | That is the order-preserving filter of the columns not on disk, unless a column of the leading run with the zero root is on disk. |
| `ColumnStore.LeadingZeroKept` | beacon-chain/das/availability_columns.go:209-244 | A stored zero-root column at the front is kept although it is on disk. |
| `ColumnStore.UnseenOrStored` | beacon-chain/das/availability_columns.go:209-244 | Either way each column is on disk or kept. |
| `ColumnStore.Store.Stash` | beacon-chain/das/data_column_cache.go:49-75 | A column is cached under its slot, root and index, over an earlier one, exactly if its index is below 128. |
| `ColumnStore.AppendColumns` | beacon-chain/das/data_column_cache.go:79-92 | Succeeds exactly when every needed index is cached, and then appends those columns, one for each. |
| `ColumnStore.Store.Cleanup` | beacon-chain/das/data_column_cache.go:37-47 | Exactly the blocks' entries are emptied. |
| `BlobStore.Store.CheckOne` | beacon-chain/das/availability_blobs.go:91-139 | A nil result for a retained block from Deneb on means that its commitments are readable and not too many, that every non-nil one is on disk, matched unless it was there before, and that the cache could fill every gap; other blocks pass; what was on disk stays; nothing is written before the whole batch is verified; the entry is dropped whenever it was consulted; with gaps filled, verification and saves succeeding, the result is nil. |
| `BlobStore.Store.IsDataAvailable` | beacon-chain/das/availability_blobs.go:82-89 | A nil result means so for every block; with every gap filled by the cache, and verification and saves succeeding, the result is nil. |
| `BlobStore.Filter` | beacon-chain/das/blob_cache.go:91-125 | Succeeds exactly when the cache agrees with the block wherever the disk has a gap, and returns the cached sidecars of exactly the committed indices not on disk, in order. |
| `BlobStore.NotStoredIs` | beacon-chain/das/blob_cache.go:91-125 | Those indices are the committed ones not on disk, ascending. |
| `BlobStore.Store.Persist` | beacon-chain/das/availability_blobs.go:57-78 | Mixed roots are refused untouched; otherwise the sidecars are stashed in turn. |
| `BlobStore.StashAllIff` | beacon-chain/das/blob_cache.go:70-83 | All of a list is cached exactly if it is within bounds, without repeats and new; what was cached stays. |
| `BlobStore.StashAllStops` | beacon-chain/das/blob_cache.go:70-83 | A list that does not fit is cached up to its first sidecar that does not, and the error says whether that one is out of bounds or taken. |
| `PayloadBodies.ComputeRanges` | beacon-chain/execution/payload_body.go:135-156 | The ranges list every given hash once, by number; each is a non-empty run of consecutive numbers from its start with count its length; none could be continued by the next, repeated numbers included. |
| `PayloadBodies.Split` | beacon-chain/execution/payload_body.go:135-156 | For any input order, the ranges' concatenation is the input, in maximal runs. |
| `PayloadBodies.ConsecutiveAt` | beacon-chain/execution/payload_body.go:135-156 | The member at position p has number start plus p. |
| `PayloadBodies.MaximalAt` | beacon-chain/execution/payload_body.go:135-156 | The next range does not start where this one ends. |
| `PayloadBodies.SortSorts` | beacon-chain/execution/payload_body.go:139-141 | Sorting is by number and a rearrangement. |
| `PayloadBodies.Reconstructor.AddToBatch` | beacon-chain/execution/payload_body.go:58-87 | Only blinded blocks with a header are taken, in order, and each non-zero hash is batched with its last number. |
| `PayloadBodies.Reconstructor.RequestBodiesByHash` | beacon-chain/execution/payload_body.go:175-203 | On success every batched hash has a body or is returned, none if the client leaves no body out; honest answers are stored under the right hashes. |
| `PayloadBodies.Reconstructor.RequestBodiesByRange` | beacon-chain/execution/payload_body.go:158-173 | On success every member of the range has a body; honest answers are stored under the right hashes. |
| `PayloadBodies.Reconstructor.HandleNilResults` | beacon-chain/execution/payload_body.go:111-127 | On success every hash left over has a body, and for canonical headers the right one. |
| `PayloadBodies.Reconstructor.RequestBodies` | beacon-chain/execution/payload_body.go:93-104 | On success every batched hash has a body. |
| `PayloadBodies.Reconstructor.Unblind` | beacon-chain/execution/payload_body.go:225-240 | The output has the blocks in order; it fails exactly when a non-zero hash has no body. |
| `PayloadBodies.Reconstructor.ReconstructBatch` | beacon-chain/execution/payload_body.go:34-56 | On success the output keeps input order and length, every non-zero hash has a body, and from an honest client and canonical headers the right one; a client that answers in full leads to success on blinded blocks with headers, and one that leaves no body out by hash is asked once. |
| `LightClientOrder.BetterIsGreaterKey` | beacon-chain/light-client/lightclient.go:594-674 | For one committee size the cascade is the lexicographic order of an eight-part key. |
| `LightClientOrder.KeyParts` | beacon-chain/light-client/lightclient.go:594-674 | The key's parts in numbers: two thirds of the committee, rounded up, and periods of 8192 slots. |
| `LightClientOrder.StrictWeakOrder` | beacon-chain/light-client/lightclient.go:594-674 | Better-than is irreflexive, asymmetric and transitive, and so is not-better. |
| `LightClientOrder.DifferentSizes` | beacon-chain/light-client/lightclient.go:594-674 | With different committee sizes two updates can each be better than the other. |
| `LightClientOrder.BestIsMaximal` | beacon-chain/light-client/store.go:118-126 | The update kept is one of those offered, and none is better. |
| `LightClientOrder.BestInAnyOrder` | beacon-chain/light-client/store.go:118-126 | Whatever the order of arrival, the updates kept tie. |
| `LightClientOrder.BroadcastIsRank` | beacon-chain/light-client/lightclient.go:759-779 | Forwarding asks for a strictly greater finalized slot, or the same slot and a first supermajority. |
| `LightClientOrder.BetterFinalityIsKey` | beacon-chain/light-client/lightclient.go:784-808 | Better finality updates are lexicographically greater in finalized, attested and signature slot. |
| `LightClientOrder.RunForwards` | beacon-chain/light-client/store.go:263-279 | The forwarded updates are, in order, those of the saves that are wanted and outrank the save just before them. |
| `LightClientOrder.ForwardedRiseIff` | beacon-chain/light-client/store.go:263-279 | Over any run of saves, forwarded updates strictly rise in finalized slot and supermajority exactly if no wanted save climbs from a lower one to a rank already forwarded. |
| `LightClientOrder.AtMostTwiceIff` | beacon-chain/light-client/store.go:263-279 | Over any run of saves, a finalized slot is forwarded at most twice exactly if no three wanted saves enter it, from a lower slot or with a first supermajority over the save just before. |
| `LightClientOrder.RisingIsAtMostTwice` | beacon-chain/light-client/lightclient.go:759-779 | Rising updates forward no finalized slot three times. |
| `LightClientOrder.KeptIsGreatest` | beacon-chain/light-client/store.go:127-145 | On one chain the finality update kept is the greatest one offered in finalized, attested and signature slot, and those forwarded rise in these slots. |
| `LightClientOrder.OfferIs` | beacon-chain/light-client/store.go:127-145 | An offer that is not greater changes nothing; a greater one is kept, and forwarded exactly if it outranks the one kept before. |
| `LightClientOrder.ForwardedEverySecond` | beacon-chain/light-client/store.go:127-145 | On one chain, ever better updates about one finalized slot with full and little participation in turn: every second one is forwarded. |
| `LightClientOrder.ForwardedTimes` | beacon-chain/light-client/store.go:127-145 | So for every n there is a chain of ever better finality updates on which one finalized slot is forwarded n times. |
| `LightClientOrder.LoweredRun` | beacon-chain/light-client/store.go:263-279 | Saving slots 5, 3 and 4 forwards exactly 5 and then 4. |
| `SyncCommitteeIndex.BuildIndex` | beacon-chain/cache/sync_committee.go:183-216 | For every validator the index gives the places that a linear scan of the two committees gives. |
| `SyncCommitteeIndex.ScanIs` | beacon-chain/cache/sync_committee.go:183-216 | The scan lists exactly the validator's places, ascending. |
| `SyncCommitteeIndex.Cache.Commit` | beacon-chain/cache/sync_committee.go:218-232 | The item is added and the queue trimmed exactly if the count has not moved. |
| `SyncCommitteeIndex.AddAndTrim` | beacon-chain/cache/sync_committee.go:224-230 | After an add the item is there, at most three roots are, without repeats, and at most the oldest has gone. |
| `SyncCommitteeIndex.AddKeepsOrder` | beacon-chain/cache/sync_committee.go:224-230 | A root already queued keeps its place in the order of eviction; a new one comes last. |
| `SyncCommitteeIndex.FindNoneIff` | beacon-chain/cache/sync_committee.go:130-155 | A lookup fails exactly if no item has the root. |
| `SyncCommitteeIndex.Cache.PositionsInCommittee` | beacon-chain/cache/sync_committee.go:130-155 | An unknown root is an error; otherwise each validator gets its cached places or nil. |
| `SyncCommitteeProtocol.StepKeepsInv` | beacon-chain/cache/sync_committee.go:62-67 | Every action of updates and of Clear keeps: a count read is current exactly if no Clear has counted since. |
| `SyncCommitteeProtocol.NothingOlderThanClear` | beacon-chain/cache/sync_committee.go:175-233 | In every interleaving, with no Clear under way, every cached index was begun after the last Clear, is the inverse of its committees, and at most three roots are cached. |
| `SyncCommitteeProtocol.CommittedIff` | beacon-chain/cache/sync_committee.go:175-233 | An update is kept exactly if it began after the last Clear, and is then found by its root. |
| `SyncCommitteeProtocol.UndisturbedIsFound` | beacon-chain/cache/sync_committee.go:175-233 | From every reachable state, an update with no Clear in between is found by its root. |
| `SyncCommitteeProtocol.ClearedIsDropped` | beacon-chain/cache/sync_committee.go:175-233 | One that a whole Clear falls into leaves nothing in the cache. |
| `SyncCommitteeProtocol.OverForGood` | beacon-chain/cache/sync_committee.go:175-233 | An update can fail at any time; one that has failed, or has committed, does not commit any more. |
| `SyncCommitteeProtocol.StaysUntilClear` | beacon-chain/cache/sync_committee.go:175-233 | What began after the last Clear stays cached until the next one, except for its own replacement and for the oldest item, which may have to make room. |

## Left out

- The fork-choice tree, the state transition, state generation, the database and the RPC layer: oracles or maps here.
- BLS, KZG, SSZ hashing and Merkle proofs: signatures are multisets of signers, verification is an oracle.
- BlobNotifier.NoLostWakeup: one waiter for each root, as the callers have it; two would share one channel.
- BlobNotifier.StepKeepsInv: columns or blobs saved without a notification are not modelled as writers.
- ColumnWait.ReturnedIsAvailable: one call inside the data-availability window; the early nil results outside it are not modelled.
- DepositService.Service.ProcessPastLogs: the rounds are bounded by a number of client calls, for every such number; the end of the function, which prunes by the finalized checkpoint, is not part of the model.
- DepositProgress.CatchUpEndsIff: a header request is not told which range is asked for; that headers arrive is stated of the whole range up to the follow height.
- DepositRetries.CompleteAfterAnyFailures: the chain of logs is one for all calls, so no reorganization reaches below a follow height.
- DepositCatchUp.CatchUpTakes: trie and cache errors after the index has advanced are taken not to happen; block numbers are unbounded.
- The chain-start state itself: one predicate says whether deposits and a block make a genesis. The chain-start check of the last requested block at the head of each polling round, in service.go, is not modelled.
- BlockSearch.Service.FindMaxTargetBlock: the low word of a negative big integer is taken to be its magnitude's, as the library computes it.
- ForkChoiceFill.FillInForkChoiceMissingBlocks: the insertion of a first pending payload, InsertChain itself and read errors of the database are not modelled; stored blocks are later than their parents.
- ForkChoiceFill.AncestorIsFirst: context cancellation is not modelled.
- BatchEnvelopes.JoinEnvelopes: proposer signatures, state transitions and their errors are not modelled.
- AttestationCache.Cache.Add: the first attestation of a group is not cloned by the code; its aliasing with the caller's object, and errors in forming an id or a signature, are not modelled.
- GetAll, GetBySlotAndCommitteeIndex and the forkchoice attestations of the attestation cache: plain reads.
- ColumnStore.Store.BisectVerification: a batch is copied before it is shifted, so aliasing between a batch and the iterator's own memory is not modelled.
- ColumnStore.Store.Gather: Gloas bid commitments set on gathered columns are not modelled.
- BlobStore.Store.Persist: a block's root determines its slot.
- PayloadBodies.Reconstructor.ReconstructBatch: errors while building a payload or a block from header and body are not modelled; sorting is an insertion sort, and `Split` holds for any order.
- LightClientOrder.BetterIsGreaterKey: the getters' version errors are not modelled.
- SyncCommitteeProtocol.NothingOlderThanClear: the 64-bit counter of clears does not wrap.
- Metrics, logging, tracing, flags and timers.
- Single-map caches, committee slicing, checked arithmetic helpers, and light-client message construction.
