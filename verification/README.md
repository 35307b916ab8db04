# Verified model of the ERC-20 transfer indexer

This project models the indexer's core and proves what it is for: that no Transfer log is
lost below a checkpoint, that retries, crashes and caches do not show in the result, that
the provider pool reaches a provider that would answer, that the indexer catches up, and
that readers and subscribers see each event once and in order.

Check everything with `dafny verify dfyconfig.toml`.

## How it is organised

| file | what it holds |
|---|---|
| `wrappers.dfy`, `arithmetic.dfy`, `numerals.dfy` | options and results, division facts, decimal and hexadecimal numerals |
| `parser.dfy` | the log parser |
| `chain.dfy` | the immutable chain and the transfers of a block range |
| `repository.dfy` | bulk insert, checkpoint records and the Redis cell, as functions and as the objects that change them |
| `batch_controller.dfy` | the adaptive batch size and its closed forms |
| `ingestion.dfy`, `ingestion_safety.dfy`, `ingestion_theorems.dfy` | the ingestion protocol as a transition system with failures, crashes, restarts, cache loss and delayed cache fills, and what all its runs keep |
| `ingestion_service.dfy`, `ingestion_refinement.dfy` | the service as a class with its loops, and the proof that each of its ticks is a run of the protocol |
| `service_theorems.dfy` | what the ticks of the service ask for, publish and report, in order and how often |
| `catch_up.dfy`, `catch_up_theorems.dfy` | exactly when, and how soon, the service reaches a fixed head |
| `breaker.dfy`, `breaker_threads.dfy` | the circuit breaker, its meaning over histories, and its lock upgrade under any interleaving |
| `pool.dfy`, `round_robin.dfy`, `pool_theorems.dfy`, `provider_bound.dfy` | selection, failover, complete sweeps, how many providers two passes are enough for |
| `pool_histories.dfy` | what a call does to the breakers, as an extension of their histories |
| `header_cache.dfy`, `fetcher.dfy`, `workers.dfy` | the header cache, the fetch, and the worker protocol |
| `stream.dfy`, `event_stream.dfy` | replay and live delivery as a transition system, and the stream objects that refine it |
| `query.dfy` | the filter builder and paging |

Code that changes state step by step is a class or a method with a loop. Its contract ties
the new state to a function of the old one, and the theorems are about that function: the
breaker's methods to `OnSuccess`, `OnFailure` and `Recheck`, the pool's `Request` to `Call`,
the repository's methods to `ApplyBulk`, `GetLast` and `SetLast`, the service to `Pass` and
`Polled`, and the stream to the steps of its transition system (`StepRepresents`).

What the servers, the network and the clock do is a parameter: every answer of the node,
every result of a bulk write, whether a failed write was applied, whether the process dies
before, between or after any two steps.

## Assumptions

- The chain does not change at any height up to the head, and a successful log filter
  returns exactly the chain's Transfer logs of the range. START_BLOCK is the same in every
  process; all other settings may change from one start to the next.
- (transaction hash, log index) identifies a log; for paging, a log index is also unique
  within its block.
- Selecting a provider is one atomic step. As written, `SelectProvider` holds the pool's
  write lock and calls `GetHealthyProviders`, which takes the read lock of the same
  non-reentrant mutex (internal/ethereum/pool.go:44, 59-62); the model is the intended
  selection.
- Provider names are distinct where the failover loop is claimed to reach somebody.
- Block numbers plus batch sizes stay below 2^64 (`Fits`, for the settings of each start). The batch
  controller's own 64-bit wrap, and the conversion of a negative divisor, are modelled.
- Breaker thresholds and the minimum and maximum batch sizes are at least 1. For catch-up the
  sizes are also below 2^63, so that they can be doubled; the minimum, the maximum and the
  starting size may be in any order. Where a theorem needs more (a success threshold or a
  divisor of at least 2), another one says what happens without.
- Each block request of a worker returns, with a timestamp or an error.

## What the code does and does not promise

- A bulk write whose errors include a duplicate is reported as a success
  (internal/repository/mongo.go:151-158). That is safe exactly when the batch is entirely new
  or entirely stored (`SuccessMeansStored`); otherwise a duplicate can hide another
  operation's failure, and a run then checkpoints a block with a transfer missing
  (`MixedErrorLosesLogs`). The no-gap theorems are for runs without such mixed answers.
- A missing Redis key reads as block 0 and counts as a hit, so a restart goes back to
  START_BLOCK whatever MongoDB has recorded (`WhereAStartBegins`). Safety holds regardless.
- Two attempts per provider reach an answering provider, while others drop out and nobody
  recovers, if and only if there are at most four providers (`TwoAttemptsSufficeIff`). With
  any number they do when the healthy list does not change.
- A process hands every transfer to the stream exactly once, in chain order, as long as its
  checkpoint writes succeed (`PublishesInOrder`). A failed one makes the next tick hand its
  range over again (`FailedCheckpointRepeats`).
- The success threshold of the breaker is exact if and only if it is at least two
  (`CloseExactIff`).
- The comments of `SelectProvider` speak of weighted selection and of a fallback to an
  unhealthy provider. The weight only orders the list, and the fallback comes with an error
  at which its callers give up (`AllOpenCallsNobody`).
- `IsHealthy` answers rightly, whatever other threads do, if and only if it does not begin
  on an open breaker whose timeout is over (`TrustworthyIff`). There it can say no about a
  healthy provider, for every setting of the thresholds (`HealthyReportedUnhealthy`).
- Catch-up is not certain. With adaptive sizes, a divisor of at least 2 and a minimum batch
  size that some provider's limit admits, every head is reached, from any starting size. Otherwise a batch
  that is refused once is refused for ever: the cursor moves over the batches before it and
  then stops for good, unless what is left is small enough (`CatchUpExactly`,
  `CatchUpClosedForm`).
- The asynchronous delete of an expired header can remove a fresh one
  (`LateDeleteDropsFreshEntry`); lookups stay truthful, and so do fetches into whose lookups such deletes fall.
- The stream's buffer is never emptied by a subscriber, so a full buffer replays the same
  oldest events to everyone (`BufferOnlyGrows`).

## Model

| member | source | states |
|---|---|---|
| Parser.ParseFidelity | internal/ethereum/parser.go:24-69 | a log parses exactly if it has three topics, the Transfer signature and 32 data bytes; then the value string is the canonical decimal numeral, at most 78 digits, of the big-endian data word, and the address fields decode to the log's address and the low 20 bytes of the topics; the event signature is "Transfer", and position and time are the log's |
| Parser.ParseInjective | internal/ethereum/parser.go:24-69 | a document determines its log and block time, except for the twelve high bytes of the two address topics |
| Parser.KeyIdentifiesLog | internal/repository/mongo.go:102-108 | two documents collide on the unique index exactly when their logs share transaction hash and log index |
| Numerals.DecimalRoundTrip | internal/ethereum/parser.go:40-41 | the decimal string of a number is canonical and parses back to it |
| Chains.TransfersContents | internal/ethereum/fetcher.go:134-149 | a document belongs to a block range exactly when some log of the range parses to it at its own block's time |
| Chains.TransfersDistinct | internal/repository/mongo.go:102-108 | the documents of a range have pairwise distinct keys |
| Chains.ChainFeedLawful | internal/ethereum/fetcher.go:31-150 | every chain satisfies the laws of ranges and keys that the protocol theorems are proved over |
| Repository.BulkContents | internal/repository/mongo.go:132-168 | a bulk write keeps every stored document, adds only documents of the batch under their own keys, and adds every one it wrote |
| Repository.SuccessMeansStored | internal/repository/mongo.go:147-161 | a nil return guarantees the batch is stored, whatever the server answers, if and only if the batch was entirely new or entirely stored |
| Repository.HiddenFailure | internal/repository/mongo.go:151-158 | on a partly stored batch there is an answer that reports success and stores nothing |
| Repository.UnmixedSuccessStores | internal/repository/mongo.go:147-161 | without a mixed error a nil return means every document of the batch is stored |
| Repository.SuccessExactly | internal/repository/mongo.go:147-161 | for every answer: nil is returned exactly if the server replied, and an error other than a duplicate came only together with a duplicate |
| Repository.IngestedAgain | internal/repository/mongo.go:151-158 | inserting a batch that is entirely stored succeeds, unless some other error comes, and changes nothing |
| Repository.CellRoundTrip | internal/cache/redis.go:91-106 | a block written to the cell reads back as itself if it fits 64 bits, else as an error |
| Repository.LastBlockRecorded | internal/repository/mongo.go:173-205 | from a coherent cell the last processed block is 0 or a recorded one, never above the largest, and reading keeps coherence |
| Repository.RecordedIsRead | internal/repository/mongo.go:210-234 | a block recorded with a working cache is what the cache answers next, whatever else is recorded |
| Repository.CellFollowsDatabase | internal/repository/mongo.go:210-234 | a checkpoint write records at most its block, does so if it succeeds, and the cell changes only then |
| Repository.ReadRepairs | internal/repository/mongo.go:185-204 | a read that the cache could not answer gives the largest recorded block and starts one fill with it, after which the cache answers that block; a hit starts nothing |
| Repository.RedisCache.GetLastProcessedBlock | internal/cache/redis.go:77-97 | disabled or failing is an error, a missing key is 0, a value is parsed as a 64-bit number |
| Repository.RedisCache.SetLastProcessedBlock | internal/cache/redis.go:101-112 | the cell holds the decimal string exactly if the cache is enabled and the write arrives |
| Repository.MongoRepository.InsertTransfers | internal/repository/mongo.go:132-168 | success and the new collection are those of the bulk specification; an empty batch writes nothing; a reply without other errors is a success, duplicates or not |
| Repository.MongoRepository.LargestProcessed | internal/repository/mongo.go:187-190 | the largest recorded block, 0 if there is none |
| Repository.MongoRepository.GetLastProcessedBlock | internal/repository/mongo.go:173-205 | answer and pending cache fills are those of the read specification |
| Repository.MongoRepository.SetLastProcessedBlock | internal/repository/mongo.go:210-234 | records first, then writes the cell on a best-effort basis, as specified; `RecordedIsRead` and `CellFollowsDatabase` say what that leaves |
| BatchController.AlwaysSettled | internal/service/ingestion.go:228-268 | over every mix of outcomes the size stays in [min, max], and below max the success count stays below the streak, and only the count of the last outcome's kind runs |
| BatchController.FailuresClosedForm | internal/service/ingestion.go:251-268 | k consecutive failures give max(min, floor(size / divisor^k)) |
| BatchController.SuccessesClosedForm | internal/service/ingestion.go:228-247 | n successes from any count give min(max, size * 2^streaks) with the remaining count |
| BatchController.StreaksClosedForm | internal/service/ingestion.go:228-247 | m full streaks from a fresh count give min(max, size * 2^m) |
| BatchController.FailuresAtMinimum | internal/service/ingestion.go:251-268 | at the minimum, failures only count up and end the success streak |
| BatchController.FailureRaisesBelowMinimum | internal/service/ingestion.go:60-63 | a failure raises the size exactly when it is below the minimum, which the constructor does not prevent |
| Ingestion.ToBlockInRange | internal/service/ingestion.go:159-162 | the asked range is non-empty and ends at or before the head exactly when the 64-bit sum does not wrap |
| IngestionSafety.RunKeepsInvariant | internal/service/ingestion.go:86-224 | every run keeps cache coherence, adjacent ranges, publication before the checkpoint, and genuine documents |
| IngestionSafety.RunKeepsNoGap | internal/service/ingestion.go:129-224 | every run without mixed bulk errors leaves no gap below any checkpoint, below the cursor, or in a range past its insert |
| IngestionSafety.NoGap | internal/service/ingestion.go:129-224 | every transfer from START_BLOCK up to any recorded block, or below the cursor, is stored under its key as the chain's own document |
| IngestionSafety.RunIsCleanPass | internal/service/ingestion.go:129-224 | whatever retries, crashes and re-ingestion happened, the store below a checkpoint or the cursor equals one clean single-block pass |
| IngestionSafety.RunsAgree | internal/service/ingestion.go:129-224 | two runs with the same START_BLOCK, whatever the settings of each of their processes, that reach the same cursor store the same documents below it |
| IngestionTheorems.RestartPointRecorded | internal/repository/mongo.go:173-234 | in every reachable state a restart is told 0 or a recorded block not above the largest, also with lost, stale or late-filled cells |
| IngestionTheorems.WhereAStartBegins | internal/service/ingestion.go:89-105 | the first block in every case: reset, cache hit, missing key, unreadable cell, cache failure, no answer at all |
| IngestionTheorems.FinishIsResumed | internal/repository/mongo.go:225-231 | over runs: once the cache write of a finished range has arrived, and until another cache write, a fill or a loss, any restart whose cache answers begins after that range |
| IngestionTheorems.FillIsResumed | internal/repository/mongo.go:195-202 | and after a fill has landed, after the block it carried |
| IngestionTheorems.NothingTakenBack | internal/repository/mongo.go:132-234 | along a run no record disappears, the largest one never gets smaller, and a stored document never changes |
| IngestionTheorems.RangesConserved | internal/service/ingestion.go:159-223 | within one process the finished ranges are non-empty, adjacent and disjoint, their sizes and the blocks counter sum to the cursor's distance, and the cursor stays within one of the largest head seen |
| IngestionTheorems.PublishedBeforeCheckpoint | internal/service/ingestion.go:193-208 | if every process streams, every transfer up to a recorded checkpoint has been handed to Publish |
| IngestionTheorems.BatchPublishedFirst | internal/service/ingestion.go:193-208 | in a process that streams, whatever other processes did, a batch's transfers are all published before its own checkpoint can be written |
| IngestionTheorems.NoLogIsMissing | internal/service/ingestion.go:129-224 | over a chain, every parseable log from START_BLOCK to a checkpoint has its document, with its own block's time |
| IngestionTheorems.MixedErrorLosesLogs | internal/repository/mongo.go:151-158 | whatever the settings, streaming included, and over any chain whose first block holds two transfers: a run with a mixed bulk error that checkpoints the block with one of them missing |
| IngestionServices.IngestionService.constructor | internal/service/ingestion.go:58-84 | starts at the configured size, 10 if it is 0, with zero counters; nothing is published yet |
| IngestionServices.IngestionService.AdjustBatchSizeOnSuccess | internal/service/ingestion.go:228-247 | the fields become those of the controller's success step |
| IngestionServices.IngestionService.AdjustBatchSizeOnFailure | internal/service/ingestion.go:251-268 | the fields become those of the controller's failure step |
| IngestionServices.IngestionService.PublishAll | internal/service/ingestion.go:195-201 | hands over the batch in order if streaming is on |
| IngestionServices.IngestionService.ProcessBlocks | internal/service/ingestion.go:129-224 | fields, repository, publications, next block and error are those of one specified tick |
| IngestionServices.IngestionService.FirstBlock | internal/service/ingestion.go:87-105 | the starting block, or the error of an unreadable checkpoint |
| IngestionServices.IngestionService.Poll | internal/service/ingestion.go:112-126 | the loop ends where the specified ticks end; a failed tick keeps the cursor |
| IngestionServices.IngestionService.Start | internal/service/ingestion.go:86-127 | start and loop together, as specified |
| IngestionRefinement.TickIsRun | internal/service/ingestion.go:129-224 | whatever the world answers, one tick of the service is a run of the protocol that leads to the same repository, controller, publications and cursor |
| IngestionRefinement.PollIsRun | internal/service/ingestion.go:112-126 | so is any number of ticks |
| IngestionRefinement.StartIsRun | internal/service/ingestion.go:86-127 | so is a start over whatever earlier processes and crashes left |
| IngestionRefinement.ServiceLeavesNoGap | internal/service/ingestion.go:86-224 | hence the program leaves no gap below any checkpoint or below its cursor, its collection there is exactly one clean pass, and if every process streams everything below its cursor has been published |
| ServiceTheorems.AsksFor | internal/service/ingestion.go:148-162 | the range of a tick in numbers, with both defaults of the batch size |
| ServiceTheorems.TickReports | internal/service/ingestion.go:129-224 | a tick succeeds exactly if there is nothing to do or the batch is stored and its checkpoint written, and only then the cursor moves past the range |
| ServiceTheorems.TickPublishes | internal/service/ingestion.go:193-201 | a streaming tick hands over exactly the range it has stored, in order and once, and nothing otherwise |
| ServiceTheorems.PublishesInOrder | internal/service/ingestion.go:112-126 | over any ticks whose checkpoint writes succeed, whatever else fails: exactly the transfers of the blocks passed have been handed over, in chain order and each once |
| ServiceTheorems.FailedCheckpointRepeats | internal/service/ingestion.go:193-208 | after a failed checkpoint write the range handed over is followed by that of the next successful tick, from the same block |
| ServiceTheorems.ControllerFollows | internal/service/ingestion.go:166-215 | over any ticks the batch controller is the one of the closed forms, told a failure per failed fetch or insert, a success per finished batch, and nothing by other ticks |
| CatchUps.FetchSucceedsInRange | internal/ethereum/pool.go:80-140 | with all providers healthy and answering, a fetch succeeds exactly when some limit admits the range, and gives the chain's transfers |
| CatchUps.CalmTick | internal/service/ingestion.go:159-171 | with working storage a tick moves the cursor by the range if it is admitted, and otherwise only adjusts the batch size; re-ingesting stored batches, all duplicates, included |
| CatchUps.TickGetsCloser | internal/service/ingestion.go:159-171 | from any size, with a divisor of at least 2 and a minimum size that some limit admits, the pair (blocks left, batch size) decreases lexicographically on every tick |
| CatchUps.RecoveringArrives | internal/service/ingestion.go:112-126 | so the cursor is one past the head within a stated number of ticks |
| CatchUpTheorems.CatchUpExactly | internal/service/ingestion.go:112-126 | for adaptive and fixed sizes, any divisor, and minimum, maximum and starting size in any order: the head is reached if failures cut a refused batch down to an admitted one, and if no batch on the way is refused; otherwise, with the batch after n successes the first refused, it is reached exactly when the blocks before it suffice or leave an admitted rest, and else the cursor stops there for ever |
| CatchUpTheorems.StillRefused | internal/service/ingestion.go:251-268 | unless the divisor is at least 2 and some limit admits the minimum, a failure after a refused batch leads to a refused batch |
| CatchUpTheorems.CatchUpClosedForm | internal/service/ingestion.go:228-268 | the second half computed before the loop begins: every head if some limit admits the ceiling, else by the first refused doubling j and the size * (streak * (2^j - 1) - successes) blocks before it |
| CatchUpTheorems.EveryBatchAdmittedIff | internal/service/ingestion.go:228-247 | all batches of a run of successes are admitted if and only if the ceiling is: the maximum size if the batch can grow, else the size itself |
| CatchUpTheorems.SomeRefused | internal/service/ingestion.go:228-247 | if the ceiling is not admitted, some doubling is the first that is refused |
| Breakers.RefinesHistory | internal/ethereum/provider.go:71-152 | with a success threshold of at least two: after any history the failure count is the trailing run of failures, the success count the successes since the later of the last failure and the last close, and the state says whether the breaker has tripped and whether a retry is due |
| Breakers.HalfOpenCallsFollow | internal/ethereum/provider.go:101-152 | the last success time and the half-open counter follow the history, the counter at most one behind the success count |
| Breakers.OpensExactly | internal/ethereum/provider.go:127-152 | for every threshold setting a healthy breaker opens exactly at the failure-threshold-th consecutive failure |
| Breakers.ClosesExactly | internal/ethereum/provider.go:101-124 | a half-open breaker closes exactly at the threshold-th success since the last failure |
| Breakers.CloseExactIff | internal/ethereum/provider.go:113-123 | the previous statement holds for every history if and only if the success threshold is at least two |
| Breakers.Provider.IsHealthy | internal/ethereum/provider.go:71-98 | rechecks an open breaker; true exactly if it is not open afterwards |
| Breakers.Provider.RecordSuccess | internal/ethereum/provider.go:101-124 | all fields become those of the success transition |
| Breakers.Provider.RecordFailure | internal/ethereum/provider.go:127-152 | all fields become those of the failure transition |
| BreakerThreads.InterleavingReplays | internal/ethereum/provider.go:71-152 | under any interleaving of any number of threads the breaker is the replay of the write-locked sections in order |
| BreakerThreads.OnlyLegalEdges | internal/ethereum/provider.go:71-152 | for every threshold setting only the four edges occur; the breaker opens exactly at the threshold-th failure in a row, half-opens only on a late success or more than the timeout after the latest failure, and closes once the successes since then reach the threshold, exactly at it if it is at least two |
| BreakerThreads.HealthyReportedUnhealthy | internal/ethereum/provider.go:83-91 | for every threshold setting and any threads, a run and a call in it that answers false about a healthy provider |
| BreakerThreads.TrustworthyIff | internal/ethereum/provider.go:71-98 | in every reachable state, a call about to begin answers rightly under every interleaving if and only if it does not find an open breaker whose timeout is over; a wrong answer is always a no about a healthy provider |
| Pools.HealthyAmongContents | internal/ethereum/pool.go:43-54 | the healthy list holds exactly the indices whose breaker is not open |
| Pools.ProviderPool.GetHealthyProviders | internal/ethereum/pool.go:43-54 | every provider is rechecked and the list is the healthy list afterwards |
| Pools.ProviderPool.SelectProvider | internal/ethereum/pool.go:58-76 | the pool and the choice are those of the selection specification |
| Pools.ProviderPool.TryOnce | internal/ethereum/pool.go:89-137 | one attempt: range check, first-pass skip, call, record, cancellation |
| Pools.ProviderPool.Request | internal/ethereum/pool.go:80-140 | a whole call leaves the pool and gives the outcome of the failover specification |
| RoundRobin.BoundedBypass | internal/ethereum/pool.go:43-76 | over consecutive selections in which no provider recovers, one that stays healthy is passed over by at most h(h-1)/2 of them, h being how many are healthy at the first, although the list shrinks and indices shift |
| RoundRobin.FairRotation | internal/ethereum/pool.go:58-67 | over consecutive selections that find the same healthy list of h, m of them choose each provider on it floor(m/h) or ceil(m/h) times and nobody else, whatever else happens to the breakers |
| PoolTheorems.CallReads | internal/ethereum/pool.go:87-139 | what the attempts of any call show: round-robin picks, calls exactly where range and first pass admit them, success with the first answer, stop at a cancelled failure; the counter moves by one per selection, success names the provider of the last attempt |
| PoolTheorems.SweepIsComplete | internal/ethereum/pool.go:58-139 | if the healthy list does not change, every listed provider in range has been called in vain before "all providers failed" |
| PoolTheorems.SweepSucceeds | internal/ethereum/pool.go:58-139 | so the call succeeds whenever one of them would answer |
| PoolTheorems.FourProvidersSuffice | internal/ethereum/pool.go:87-139 | with at most four providers and nobody recovering, a call reaches a healthy answering provider in range although others drop out |
| ProviderBound.TwoAttemptsSufficeIff | internal/ethereum/pool.go:87-139 | for every number of providers: such calls always succeed if and only if there are at most four |
| ProviderBound.LargeFail | internal/ethereum/pool.go:87-139 | for seven or more, two providers that drop out at the end of the first two rounds are enough to make a call fail |
| PoolTheorems.FirstPassCallsOnce | internal/ethereum/pool.go:103-107 | during the first pass no provider is called twice |
| PoolTheorems.AllShutEndsCall | internal/ethereum/pool.go:70-93 | a call that has come to its n-th attempt selects nobody further exactly when every provider is open and not due by then, and then it fails with the fallback unused |
| PoolTheorems.AllOpenCallsNobody | internal/ethereum/pool.go:70-93 | a call selects nobody at all exactly when every provider is open and not due at its first selection |
| PoolTheorems.HealthyPoolAnswers | internal/ethereum/pool.go:80-183 | with everyone healthy and answering in range, a request succeeds exactly when some limit admits it, and all stay healthy |
| PoolHistories.CallReplays | internal/ethereum/pool.go:89-139 | after any call each breaker is the replay of its own events over its breaker before: a recheck at each selection, a success or failure at each of its calls |
| PoolHistories.CallExtendsHistory | internal/ethereum/pool.go:89-139 | so a call extends every breaker's history by these events, and what is proved of histories holds across calls |
| PoolHistories.SuccessIsRecorded | internal/ethereum/pool.go:119-125 | the provider that answered is not open, has no failures counted, and its last success is the time of the last attempt |
| HeaderCaches.NeverLies | internal/ethereum/cache.go:32-67 | after any history of true sets, lookups and late deletes, a lookup gives the block's own time or nothing |
| HeaderCaches.CacheShowsLastSet | internal/ethereum/cache.go:51-67 | an entry is the last set that no delete has followed, with its own deadline |
| HeaderCaches.AnswersWhileFresh | internal/ethereum/cache.go:32-49 | a lookup answers exactly while that set is not older than the lifetime |
| HeaderCaches.LateDeleteDropsFreshEntry | internal/ethereum/cache.go:42-46 | a history in which the delete of an expired entry removes a fresh one |
| HeaderCaches.DeletesAreForExpired | internal/ethereum/cache.go:40-46 | over any history the pending deletes of a block are the lookups that found it expired less the deletes that have landed |
| HeaderCaches.LookupLeavesCache | internal/ethereum/cache.go:32-49 | a lookup changes something exactly if the entry has expired, and never if it answers |
| HeaderCaches.BlockHeaderCache.Get | internal/ethereum/cache.go:32-49 | the lookup's answer, and one pending delete if the entry has expired; a lookup that answers changes nothing |
| HeaderCaches.BlockHeaderCache.Set | internal/ethereum/cache.go:52-60 | replaces the entry with a new deadline |
| HeaderCaches.BlockHeaderCache.Delete | internal/ethereum/cache.go:63-67 | removes the entry |
| Fetchers.Fetcher.FetchTransferLogs | internal/ethereum/fetcher.go:31-150 | with deletes and sets by others landing between its lookups: fails exactly if the filter fails or a block whose lookup found nothing is not answered, never for a missing timestamp; else returns the parseable logs in log order; sets exactly the answered blocks |
| Fetchers.Fetcher.LookUp | internal/ethereum/fetcher.go:59-73 | each distinct block is looked up once, in order of appearance, in the cache of that moment; the found times, and the others without repetition |
| Fetchers.Fetcher.Collector | internal/ethereum/fetcher.go:123-130 | all times, or the error of some failed block |
| Fetchers.Fetcher.ParseAll | internal/ethereum/fetcher.go:133-149 | the parseable logs in order if every block has a time |
| Fetchers.FetchIsTransparent | internal/ethereum/fetcher.go:56-149 | from a truthful cache, and whatever deletes and true sets land between the lookups, a successful fetch gives the logs paired with their true block times, for every completion order |
| Fetchers.FetchGivesRange | internal/ethereum/fetcher.go:31-150 | over a chain it gives exactly the transfers of the range |
| Fetchers.FetchSucceedsExactly | internal/ethereum/fetcher.go:49-149 | if nobody else touches the cache between the lookups, a fetch succeeds exactly if the filter does and every block of a log has an unexpired time or an answered request |
| Fetchers.RefetchAsksNobody | internal/ethereum/fetcher.go:59-113 | a second fetch of the same logs within the lifetime of the times makes no block request |
| Fetchers.WorkersRearrange | internal/ethereum/fetcher.go:89-130 | what the workers deliver, in any interleaving, is a rearrangement of the blocks |
| Workers.AtMostFiveInFlight | internal/ethereum/fetcher.go:84-121 | at most five requests are in flight, none is made or delivered twice, and a send never blocks |
| Workers.FiveCanBeInFlight | internal/ethereum/fetcher.go:84-92 | and any number up to five, and up to the number of blocks, can be |
| Workers.WorkersProgress | internal/ethereum/fetcher.go:89-121 | while a worker is not done some worker can move, whatever the collector did |
| Workers.CollectorProgress | internal/ethereum/fetcher.go:123-130 | a waiting collector never waits in vain |
| Workers.EveryRunEndsWell | internal/ethereum/fetcher.go:84-131 | every run ends within five steps per block with every worker done, every block requested and delivered exactly once, and the collector successful exactly if no block failed |
| Streams.Delivery | internal/stream/stream.go:36-117 | received plus queued is an order-preserving merge of a prefix of the buffer at subscription and a subsequence of later publishes, without repetition; live and dropped events add up; the buffer stays within its size |
| Streams.NothingMissed | internal/stream/stream.go:66-75 | a client whose channel always had room, or, being unbuffered, a waiting receiver, has every event published since it subscribed |
| Streams.BufferOnlyGrows | internal/stream/stream.go:51-57 | along a run nothing leaves the buffer, and once full it never changes |
| Streams.BufferExactly | internal/stream/stream.go:51-57 | the buffer is exactly the first events, as many as fit, of those published while nobody was subscribed |
| Streams.SubscriptionFixes | internal/stream/stream.go:80-107 | what a client is replayed is the buffer when it subscribed, and its live events are those published since |
| Streams.ReplayGoesOn | internal/stream/stream.go:87-105 | while the channel takes events the replay can send the next, until the client has the whole buffer of its subscription |
| Streams.TimeoutEndsReplay | internal/stream/stream.go:100-102 | after the timeout a client is replayed nothing more |
| Streams.CleanupEnds | internal/stream/stream.go:109-114 | after its cleanup a client is sent nothing more |
| EventStreams.StepRepresents | internal/stream/stream.go:36-117 | what the objects do at each step is what the transition system does, for the transfers its events stand for |
| EventStreams.DeliveredOnce | internal/stream/stream.go:36-117 | the transfers a channel has delivered and has queued are distinct publications that merge the replayed ones in buffer order and the live ones in publication order |
| EventStreams.EventStream.Publish | internal/stream/stream.go:36-76 | one publish step: buffers without clients if there is room; else offers the transfer to every client, into its queue or to a waiting receiver of an unbuffered channel, and drops it otherwise; without clients the buffer grows by exactly the transfer, with one it stays |
| EventStreams.EventStream.Subscribe | internal/stream/stream.go:80-117 | one subscribe step: a fresh empty channel of the buffer's size whose replay has not begun |
| EventStreams.EventStream.CopyBuffer | internal/stream/stream.go:87-91 | the replay goroutine's copy of the buffer |
| EventStreams.EventStream.ReplayNext | internal/stream/stream.go:93-99 | it sends the next event of its copy when the channel takes it |
| EventStreams.EventStream.GiveUp | internal/stream/stream.go:100-102 | it stops after waiting in vain |
| EventStreams.EventStream.Receive | internal/stream/stream.go:84-84 | the oldest queued event leaves the channel |
| EventStreams.EventStream.Cleanup | internal/stream/stream.go:109-114 | the client is no longer offered anything |
| Queries.AddRange | internal/repository/mongo.go:279-298 | one nested document holds the bounds that are given |
| Queries.BuildFilter | internal/repository/mongo.go:267-301 | the filter selects a document exactly if it meets all given texts and inclusive bounds |
| Queries.WindowsJoin | internal/repository/mongo.go:236-265 | the listing of the newer part of a block range followed by that of the older part is a listing of the whole |
| Queries.ListingDetermined | internal/repository/mongo.go:244-251 | the sorted listing is determined if and only if no two selected documents share block and log index |
| Queries.ChainUntied | internal/repository/mongo.go:244-251 | documents of a chain with unique log indices per block never do |
| Queries.PagesTile | internal/repository/mongo.go:250-251 | the first n pages are the first n * limit documents |
| Queries.PageContents | internal/repository/mongo.go:250-251 | a page is the documents from its offset on, at most the limit, fewer only at the end, and 0 is no limit |
| Queries.PagingIsComplete | internal/repository/mongo.go:236-265 | paging through an unchanged collection shows every selected document exactly once, in order |

## Left out

- Chain reorganisations, and a START_BLOCK that changes between runs: the code does not handle them.
- `Value` and `ValueDecimal` of a document: Decimal128 belongs to a library that is not part of this model and wide values fall back to zero; the float is a rounding. `CreatedAt` is wall-clock time. Documents are compared without these fields.
- Checksummed address casing: `Hex` then `ToLower` is modelled as lower-case hexadecimal.
- The sort by weight in `NewProviderPool`: the pool is given its list in order.
- The interleaving of other selections with one failover call: the sweep and four-provider theorems are about a call alone in the pool. The calls of the header workers are covered in `CatchUps` only for pools in which everyone answers.
- `halfOpenMaxCalls`: stored by the code and never compared.
- Reads of the breaker between lock release and retake outside `BreakerThreads`: the pool uses the sequential recheck.
- Delayed cache fills and cache loss in the middle of a tick: they are steps of the protocol, not of the `IngestionService` object.
- Fetchers.Fetcher.FetchTransferLogs: the object's cache is shown after all workers have finished, also when the collector returned early, and others touch it only between the lookups; the interleaving of the workers is in `Workers`.
- The stream after a client's cleanup (a send on a closed channel), `ClearBuffer`, `StartBackgroundCleanup`, more than one publisher, and transfers that do not marshal (the code skips those). The replay goroutine that `Subscribe` starts is modelled by the methods `CopyBuffer`, `ReplayNext` and `GiveUp`, to be called in any interleaving.
- `GetAggregates`: it is computed inside MongoDB over floats.
- Millisecond rounding of times in MongoDB queries.
- `IsTxProcessed` and `MarkTxProcessed`: nothing in the ingestion path uses them.
- Network calls, configuration loading, HTTP, WebSocket and SSE handlers, logging and metrics, and the limit clamp of the query service: input and output, or easy branches.
