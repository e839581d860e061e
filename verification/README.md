# Quantum key service: a verified model

This project models the stateful and arithmetic cores of a Go service that collects quantum entropy
into a pool, audits random samples with the NIST SP 800-22 tests, generates RSA keys from the pool
and announces events over AMQP.

| file | what it is about |
|---|---|
| `RefillBatch.dfy`, `RefillSchedules.dfy` | one refill batch: producer, four workers, closer and collector goroutines under every schedule, with an invariant, progress, termination and exact bounds; concrete schedules that reach the bounds |
| `Collector.dfy`, `CollectorSchedules.dfy` | the `Scheduler` object: the refill loop around the batches, `saveRecords`, `Stop` and `pool.ok`; what holds of every chain of batches the loop can run; refills that reach the limits |
| `EntropyPool.dfy`, `EntropySystem.dfy`, `EntropySchedules.dfy`, `KeyService.dfy` | the pool of records as the `Repository` object; the pool with collector and key service interleaved: conservation, hysteresis and bounds over every run; what a key generation or an export costs |
| `BitStrings.dfy`, `Patterns.dfy`, `CountTables.dfy`, `Serial.dfy`, `ApproximateEntropy.dfy` | overlapping pattern counts and the Serial statistics in exact integers, `psi^2` kept multiplied by n |
| `CumulativeSums.dfy`, `LongestRun.dfy` | the CUSUM excursions and p-value ranges; the longest-run bins |
| `Lifecycle.dfy`, `Calls.dfy`, `Connection.dfy` | the AMQP connection as a machine with many callers, closers and a broker that may kill anything; single calls inside its runs: the returned channel was alive, failures are not sticky; the `Connection` object, whose every method is shown to be a run of that machine, with the broker breaking things between its statements |
| `FanIn.dfy` | the order-restoring fan-in |
| `XorStreams.dfy` | the seed-mixing reader and the counter-mode keystream |
| `Tally.dfy`, `Options.dfy` | totals over sequences, integer sums, optional values |

Concurrent code is a transition system: an action is one atomic step of one goroutine, `Enabled` says
when it may happen, `Apply` what it does, `Run` and `Exec` range over all interleavings. Objects whose
methods update fields are classes whose methods are proved against functions of the old state, and
`Collector.Scheduler` and `Connection.Connection` are tied to their machines: what they do is a run of
the machine, so the theorems about all runs apply to them. What the code gets from outside (fetch
results, database errors, which rows a query finds, what the broker answers, the clock, random bytes)
arrives as a parameter or as a nondeterministic action.

## What the code does that its comments or logs do not say

- The circuit breaker counts failures of the whole refill, not consecutive ones, although the log line
  at `internal/collector/scheduler.go:125-128` calls them consecutive. A refill is reported stopped by
  failures exactly when at least ten of all its results were failures, in whatever order
  (`Collector.RefillVerdict`); within a batch the producer quits early exactly when ten had been counted
  at one of its checks (`RefillBatch.BreakerExactly`). `CollectorSchedules.StopsWithoutTwoInARow` is a
  whole refill reported so in which no two results in a row were failures.
- A batch result of (0, 0) is commented as the stop signal (`internal/collector/scheduler.go:120-122`).
  It is also what a batch returns whose fetches all succeeded while the store refused every record:
  `RefillBatch.NothingHappened` says exactly when, `RefillSchedules.NothingSavedWithoutStop` is a schedule.
- The count in a `pool.ok` event is the collector's running count, which exceeds the pool by what was
  consumed during the refill: `EntropySystem.AnnouncedCountIsStale`. `EntropySchedules.StaleAnnouncementHappens`
  announces 1000 over a pool of 995.
- `Close` clears the negative cache, so the spacing of recorded failures holds only between two calls of
  `Close`: `Calls.CloseResetsTheWindow` records two failures at one instant.
- Pattern keys are 32 bits wide: up to 32-bit patterns they are exact, beyond that two patterns share a
  key exactly when their last 32 bits agree (`Patterns.KeyIsExact`, `Patterns.LongKeysCollide`).
- The keystream's counter is written as four bytes: blocks i and j are the same exactly when their
  counters agree modulo 2^32, so the stream repeats after 2^32 blocks (`Keystream.CountersCollide`,
  `Keystream.KeystreamRepeats`).
- A stopped refill batch may return while its producer is still about to check for the next job
  (`RefillSchedules.ReturnsBeforeProducer`); `RefillBatch.Progress` shows the producer then ends by itself.

## Model

| member | source | states |
|---|---|---|
| RefillBatch.AtMostFourteenFailedFetches | internal/collector/scheduler.go:150-189 | in every state of every schedule of a batch at most 14 fetches have failed |
| RefillSchedules.FourteenFailuresHappen | internal/collector/scheduler.go:150-189 | that bound is attained by a concrete schedule, so it cannot be lowered |
| RefillBatch.BreakerExactly | internal/collector/scheduler.go:177-189 | over every run: a producer nobody stopped quits with jobs left if and only if at one of its checks at least maxFailures failures had been counted |
| RefillSchedules.BreakerIsCumulative | internal/collector/scheduler.go:177-189 | the breaker trips in a batch whose received results never hold two failures in a row |
| RefillBatch.RunInv | internal/collector/scheduler.go:146-204 | breaker, ordering, folding, content, job, shutdown and stop invariants hold after every run |
| RefillBatch.Progress | internal/collector/scheduler.go:146-204 | until collector and producer are both done some goroutine can move without help from outside: no deadlock |
| RefillBatch.StepTerminates | internal/collector/scheduler.go:146-204 | every step of any goroutine lowers a lexicographic measure, so every schedule ends |
| RefillBatch.ReceivedIsDelivered | internal/collector/scheduler.go:163-203 | when a batch returns after any schedule, what it received is, as a multiset, exactly what its fetches delivered: every error and every chunk, byte for byte |
| RefillBatch.ReturnedExactly | internal/collector/scheduler.go:163-203 | at return every sent result was received once and in order, failures equals the final failCount, saved equals the accepted saves, and the records offered are the received chunks cut in order |
| RefillBatch.ReturnedComplete | internal/collector/scheduler.go:177-189 | a batch neither stopped nor tripped got one result for each of its fetches |
| RefillBatch.NoSendAfterClose | internal/collector/scheduler.go:191-194 | a send on the closed results channel is unreachable |
| RefillBatch.OnlyTheCollectorWrites | internal/collector/scheduler.go:139-145 | at every moment of every run the records offered to the store are the first ones of the received chunks cut in order, missing only the rest of the chunk being saved |
| RefillBatch.FewFetchesAfterStop | internal/collector/scheduler.go:157-163 | after Stop at most refillWorkers further fetches start, in every run |
| RefillBatch.StoppedBatchDoesNothing | internal/collector/scheduler.go:157-188 | a batch begun after Stop starts no fetch and has nothing saved and nothing failed, in every run |
| RefillBatch.NothingHappened | internal/collector/scheduler.go:120-122 | (0, 0) comes back exactly when nothing failed and the store took nothing; without a stop every fetch came back |
| RefillSchedules.NothingSavedWithoutStop | internal/collector/scheduler.go:120-122 | (0, 0) is returned by a run that nobody stopped |
| RefillSchedules.ReturnsBeforeProducer | internal/collector/scheduler.go:177-203 | a batch can return while its producer is still at its check |
| RefillBatch.CutsCoverTheChunk | internal/collector/scheduler.go:249-254 | the cuts of a chunk concatenate to it, there are ceil(n/256) of them, and the i-th is the 256 bytes from 256 i on, or what is left of them |
| RefillBatch.SavedBounded | internal/collector/scheduler.go:196-203 | chunks of at most 1024 bytes give at most four records per fetch |
| RefillBatch.RunRefillBatch | internal/collector/scheduler.go:146-204 | under an arbitrary scheduler a batch returns after some run of the machine, having received exactly what the fetches of that run delivered, with at most 14 failures and at most four records per fetch of at most 1024 bytes |
| RefillBatch.EveryBatchKeepsContract | internal/collector/scheduler.go:146-204 | the same holds of every run after which a batch returns |
| Collector.Scheduler.constructor | internal/collector/scheduler.go:42-54 | a new scheduler is not stopped and has announced nothing |
| Collector.Scheduler.Stop | internal/collector/scheduler.go:73-76 | raises the stop signal, once, and touches nothing else |
| Collector.Scheduler.SaveRecords | internal/collector/scheduler.go:249-268 | the store absorbs exactly the chunk's cuts it accepts, in order, and the result counts them |
| Collector.Scheduler.FoldResults | internal/collector/scheduler.go:196-203 | ranging over a batch's results with saveRecords makes exactly the batch's attempts on the store, and returns its saved and failed counts |
| Collector.Scheduler.PublishPoolOk | internal/collector/scheduler.go:297-311 | one event with the count, none without a publisher or when publishing fails |
| Collector.Scheduler.Pass | internal/collector/scheduler.go:115-123 | one pass runs a real batch of ceil((1000 - count) / 4) fetches with the current stop flag, the pool absorbs its attempts, and it is a whole batch of the interleaved system |
| Collector.Scheduler.RefillLoop | internal/collector/scheduler.go:113-123 | the loop ends; its batches form a chain of real batches, each begun at the count and stop flag the ones before left, and the pool is what they leave of it |
| Collector.Scheduler.CollectEntropy | internal/collector/scheduler.go:102-137 | always ends; refills exactly below 200 unused records, by such a chain; ends at 1000 records, at ten failures or after a batch that saved and failed nothing; its count equals the pool; publishes pool.ok at most once, exactly when it started below 200 and ended at or above 1000; and is a run of the interleaved system |
| Collector.GoesOnBelowTheLimits | internal/collector/scheduler.go:114-118 | before each batch of a refill it has fewer than 1000 records and fewer than ten failures, the batch makes just enough fetches to reach 1000 with four records each, and no batch but the last saved and failed nothing |
| Collector.RefillBounds | internal/collector/scheduler.go:113-123 | every chain of batches that is a whole refill counts at most 23 failures and, with chunks of at most 1024 bytes, at most 1003 records |
| Collector.StopObeyed | internal/collector/scheduler.go:120-122 | in every chain the batches before the last two ran without a stop; a stop during the last but one makes the last save and fail nothing; after Stop a refill is a single such batch |
| Collector.RefillVerdict | internal/collector/scheduler.go:113-128 | a refill has ten failures or more exactly when that many of all its results failed; it ends below 1000 records and below ten failures exactly when its last batch saved and failed nothing, and that batch was stopped or had every record refused |
| CollectorSchedules.StopsWithoutTwoInARow | internal/collector/scheduler.go:125-128 | a whole refill reported stopped by consecutive failures with no two failures in a row |
| CollectorSchedules.TwentyThreeFailuresHappen | internal/collector/scheduler.go:113-123 | a whole refill of two batches counts 23 failures, so the bound is attained |
| Collector.LoopTurn | internal/collector/scheduler.go:114-123 | one more real batch extends the chain or completes the refill |
| Collector.PassIsSteps | internal/collector/scheduler.go:115-123 | a batch's saves and its fold are the steps of the interleaved system from one pass of the loop to the next |
| EntropyPool.InsertAddsOne | internal/keymanager/repository.go:25-27 | a saved record is one more unused record and one more row |
| EntropyPool.InsertKeeps | internal/keymanager/repository.go:25-27 | the new row has a fresh id, holds the bytes it was given and is unused; every other row is unchanged |
| EntropyPool.MarkUsedMoves | internal/keymanager/repository.go:59 | consuming moves exactly the chosen ids from the unused to the used ones and loses none |
| EntropyPool.MarkUsedKeeps | internal/keymanager/repository.go:59 | consuming changes no row's bytes, and `used` only of the chosen rows |
| EntropyPool.Repository.SaveEntropy | internal/keymanager/repository.go:25-27 | one fresh unused row with the given bytes and every old row as it was, or no change when the database fails |
| EntropyPool.Repository.CountAllUnusedEntropy | internal/keymanager/repository.go:30-34 | the rows counted one by one are the unused records, which with the used ones make up all rows; or the database's error |
| EntropyPool.Repository.ConsumeEntropy | internal/keymanager/repository.go:44-60 | succeeds exactly when the database works and n unused rows exist, returns n distinct unused rows, sets `used` of exactly those and keeps every row's bytes; a failure changes nothing |
| EntropySystem.PoolConserved | internal/keymanager/repository.go:44-60 | over every interleaving saves = unused + 5 per paid GenerateKey + 2 per paid export, and no record goes to two of them |
| EntropySystem.UsedNeverReverts | internal/keymanager/repository.go:44-60 | a used record stays used and no record disappears, over every run |
| EntropySystem.SavedBytesAreKept | internal/keymanager/repository.go:25-60 | whatever is saved and consumed afterwards, a record keeps the bytes it was saved with |
| EntropySystem.RefillDecisions | internal/collector/scheduler.go:108-135 | a refill starts exactly below 200 records, goes on exactly below 1000 records and ten failures unless a batch saved and failed nothing, and is announced exactly from 1000 records on |
| EntropySystem.RunInv | internal/collector/scheduler.go:102-137 | ledger, snapshot and hysteresis invariants hold after every run |
| EntropySystem.AnnouncementsAreSpaced | internal/collector/scheduler.go:102-137 | the refills behind two consecutive announcements begin at least 801 consumed records apart, so N announcements mean at least (N-1)*801 consumed |
| EntropySystem.NextRefillIsFar | internal/collector/scheduler.go:108-110 | any refill that begins after an announcement begins at least 801 consumed records after the one that announced |
| EntropySystem.AnnouncedCountIsStale | internal/collector/scheduler.go:119-136 | the announced count is the pool plus exactly what was consumed during the refill |
| EntropySchedules.StaleAnnouncementHappens | internal/collector/scheduler.go:119-136 | a reachable run announces 1000 over a pool of 995 |
| EntropySystem.RefillsAreBounded | internal/collector/scheduler.go:113-136 | whatever is consumed meanwhile, no refill counts more than 23 failures, every announced count is at least 1000 and, when no batch saves more than four records per fetch, at most 1003 |
| KeyService.Service.GenerateKey | internal/keymanager/service.go:83-136 | pays five records exactly when the size is 2048 or 4096 and the pool can pay, and keeps them spent when a later step fails |
| KeyService.Service.ExportPrivateKey | internal/keymanager/service.go:140-164 | pays two records exactly when the key is found and the pool can pay, and keeps them spent when a later step fails |
| KeyService.ChargedIsAStep | internal/keymanager/service.go:89-92 | a paid call is a consumption step of the interleaved system |
| BitStrings.PackExpand | internal/audit/validators/bits.go:4-12 | eight bits per byte, and the bytes can be read back |
| BitStrings.ToBits | internal/audit/validators/bits.go:4-12 | the nested loops give eight bits per byte; bit k is data[k / 8] / 2^(7 - k mod 8) mod 2 |
| BitStrings.ValueOfWord | internal/audit/validators/nist.go:203-206 | keys below 2^m and m-bit words are in bijection: from keys |
| BitStrings.WordOfValue | internal/audit/validators/nist.go:203-206 | keys below 2^m and m-bit words are in bijection: from words |
| Patterns.OccurrencesArePositions | internal/audit/validators/nist.go:193-208 | the count of a word is the number of positions from which the bits, read around the end, spell it |
| Patterns.Marginals | internal/audit/validators/nist.go:193-208 | circular counts marginalise on both sides: c[w0] + c[w1] = c[w] = c[0w] + c[1w] |
| Patterns.KeyIsExact | internal/audit/validators/nist.go:203-206 | for up to 32 bits the uint32 key is below 2^m and determines the word |
| Patterns.LongKeysCollide | internal/audit/validators/nist.go:203-206 | for longer words keys agree exactly when the last 32 bits do |
| Patterns.RollKey | internal/audit/validators/nist.go:203-206 | the shift-and-or loop over the extended stream computes the key of the circular window, within bounds |
| Patterns.KeyHitsAreHits | internal/audit/validators/nist.go:201-208 | counting keys is counting words, and no key reaches 2^m |
| Patterns.CountPatterns | internal/audit/validators/nist.go:193-208 | the counts map holds every key that occurs with its number of occurrences, and nothing else |
| ApproximateEntropy.PhiCounts | internal/audit/validators/nist.go:124-156 | declines exactly the samples the test declines; otherwise the two maps count the 32-bit keys of all windows and, up to m = 31, hold the word counts for m and m+1 bits and marginalise into each other |
| Serial.CountsSumToLength | internal/audit/validators/nist.go:201-208 | the counts of all m-bit words sum to n |
| Serial.FirstDifference | internal/audit/validators/nist.go:182-185 | n(psi^2_(m+1) - psi^2_m) = 2^m times the sum over m-bit w of (c[w0] - c[w1])^2, hence not negative |
| Serial.SecondDifference | internal/audit/validators/nist.go:183-186 | n times the second difference = 2^m times the sum over m-bit w of (c[0w0] - c[0w1] - c[1w0] + c[1w1])^2, hence not negative |
| Serial.SumOverMap | internal/audit/validators/nist.go:210-213 | ranging over the map in any order adds the squares of the counts of all words |
| Serial.SerialPsi2 | internal/audit/validators/nist.go:193-216 | the code's value times n is the definition of psi^2 in section 2.11.4 of NIST SP 800-22 Rev. 1a, times n |
| Serial.PatternLength | internal/audit/validators/nist.go:170-177 | m is in [3, 16], is 3 or has 2 m 2^m <= n, every larger mm up to 16 has 2 mm 2^mm > n, and the sample is long enough for m |
| Serial.SecondGuardImplied | internal/audit/validators/nist.go:174 | the second test of the length loop follows from the first |
| Serial.NISTSerial | internal/audit/validators/nist.go:170-189 | for every sample of at least two bits, with that m, both statistics handed to igamc are, times n, the sums of squares above: never negative |
| CumulativeSums.ReverseWalk | internal/audit/validators/nist.go:244-245 | the reversed sample's walk is the forward walk seen from its end |
| CumulativeSums.Excursions | internal/audit/validators/nist.go:220-245 | z is max abs(S_k) of the sample; zrev, from the forward extremes only, is that of the reversed sample; for n >= 1 both lie in [1, n] |
| CumulativeSums.RangesSymmetric | internal/audit/validators/nist.go:267-273 | with truncating division sum1 runs over [-K, K] and sum2 over [-1-K, K] |
| CumulativeSums.FloorIsNotSymmetric | internal/audit/validators/nist.go:257-258 | a flooring division would keep sum1's symmetry exactly when 4 divides nz - 1 |
| CumulativeSums.CumulativeSumsP | internal/audit/validators/nist.go:259-276 | with K = (n/z - 1)/4, for z in [1, n] the result is 2 - 4 phi(1) + 4 phi(3) - ... - 4 phi(4K+1) + 2 phi(4K+3); 0 for z <= 0, and the two single terms for z > n |
| LongestRun.LongestRunUnique | internal/audit/validators/nist.go:88-99 | a block has one longest run |
| LongestRun.LongestRunOf | internal/audit/validators/nist.go:88-99 | the inner loop returns the length of the block's longest contiguous segment of ones |
| LongestRun.BinIndex | internal/audit/validators/nist.go:100-111 | the bin of a run: up to 1, 2, 3, from 4 on in the small tier; up to 4, 5, 6, 7, 8, from 9 on in the large one |
| LongestRun.TierFits | internal/audit/validators/nist.go:77-82 | the blocks of either tier lie inside the sample |
| LongestRun.LongestRunBins | internal/audit/validators/nist.go:65-113 | nothing below 128 bits; below 6272 bits the bins count the longest runs of 16 blocks of 8 bits by the classes 1, 2, 3, 4 and sum to 16; from there on those of 49 blocks of 128 bits by the classes 4 to 9 and sum to 49 |
| Lifecycle.RunInv | internal/messaging/connection.go:114-287 | ownership, channel, topology and cache invariants hold after every run |
| Lifecycle.SessionsHaveOneOwner | internal/messaging/connection.go:153-195 | every dialled session is always in exactly one place: being connected, installed, held by one closer or closed; none is closed twice |
| Lifecycle.LiveSessionsAreKept | internal/messaging/connection.go:153-195 | a live installed session stays installed and alive until the broker kills it or Close takes it |
| Calls.LiveHandlesAreKept | internal/messaging/connection.go:153-231 | the same of both handles: a live channel on a live session is neither replaced nor closed |
| Lifecycle.ReturnedChannelsAreDeclared | internal/messaging/connection.go:114-127 | every channel ever returned had the topology declared on it, no channel is declared twice, and topologyDeclared speaks of the installed channel |
| Lifecycle.ReplyIsInstalled | internal/messaging/connection.go:123-126 | a successful reply is the channel installed at that moment, with its topology declared |
| Lifecycle.NegativeCacheHolds | internal/messaging/connection.go:236-249 | in every run any two recorded failures with no Close between them are at least reconnectDelay apart, and a suppressed call repeats the cause of an earlier failure since which there was no other and no Close |
| Calls.SuppressedExactly | internal/messaging/connection.go:236-242 | a call is answered from the cache exactly while the recorded failure is less than reconnectDelay old |
| Calls.RefusalsAreReported | internal/messaging/connection.go:160-222 | each refusal of the dial, of the channel or of a reopen is recorded and answered with its own cause; a session without a channel is closed first |
| Lifecycle.FailuresInWindow | internal/messaging/connection.go:236-249 | a stretch without Close whose failures fall into a window of length L holds at most L / reconnectDelay + 1 of them |
| Calls.CloseResetsTheWindow | internal/messaging/connection.go:259-268 | with a Close between them two failures can be recorded at one instant |
| Calls.HolderMoves | internal/messaging/connection.go:153-231 | the holder of the mutex never meets a missing field and leaves after at most nine steps |
| Calls.ReturnedChannelWasAlive | internal/messaging/connection.go:127-158 | whatever the broker kills and closers do meanwhile, the channel a call returns was open on a live session at some moment of that call: a dead channel found installed is never served |
| Calls.CooperativeCallSucceeds | internal/messaging/connection.go:114-195 | every call in whose way nothing stands, during which the broker refuses and kills nothing, returns the installed channel, declared and alive |
| Calls.CallPastTheWindowSucceeds | internal/messaging/connection.go:114-195 | that holds of every call that starts with live handles, with no recorded failure, or with one at least reconnectDelay old |
| Calls.Recovers | internal/messaging/connection.go:118-126 | failures are not sticky: from every reachable state, whatever has died, the machine can go on, with nothing more killed and after waiting at most reconnectDelay, to a call that returns the installed channel, declared and alive |
| Connection.Connection.constructor | internal/messaging/connection.go:101-105 | the object starts in the machine's initial state |
| Connection.Connection.Channel | internal/messaging/connection.go:114-127 | one call is a run of the machine that ends with its reply, with the broker breaking sessions and channels between its statements; a returned channel is installed, declared, and was alive during the call. Starting with live handles, no failure, or one at least reconnectDelay old, a cooperating broker gives a live channel; within the window, without live handles, an instant call is suppressed with the recorded cause and tries nothing; live handles are returned untouched; every refusal is answered and recorded with its own cause |
| Connection.Connection.ConnectLocked | internal/messaging/connection.go:153-195 | follows the machine from the liveness check to an installed channel or an error reply |
| Connection.Connection.ReopenChannelLocked | internal/messaging/connection.go:200-231 | follows the machine's reopen path, with its own pass through the negative cache |
| Connection.Connection.CachedDialError | internal/messaging/connection.go:236-242 | nothing exactly when no failure is recorded or it is at least reconnectDelay old, otherwise the recorded cause |
| Connection.Connection.Close | internal/messaging/connection.go:259-287 | empties the fields and closes the channel and the session they held, as a run of one closer of the machine |
| FanIn.NoProducerBlocks | internal/audit/suites.go:260-269 | a producer with its result can always send: the buffer never blocks anyone, and the channel is not closed |
| FanIn.Progress | internal/audit/suites.go:259-286 | until the collector is done some goroutine can move |
| FanIn.StepTerminates | internal/audit/suites.go:259-286 | every step lowers a measure |
| FanIn.FinishedInOrder | internal/audit/suites.go:276-279 | when the range loop ends every group is its closure's output |
| FanIn.FlattenAt | internal/audit/suites.go:281-285 | item j of closure i lands at j plus the lengths of the outputs before i |
| FanIn.RefinesSequential | internal/audit/suites.go:259-286 | every schedule that finishes yields the sequential concatenation |
| FanIn.RunFanIn | internal/audit/suites.go:259-286 | under an arbitrary scheduler item j of closure i ends at j plus the lengths of the outputs before i, and nothing else is in the result |
| XorReader.MixCompose | internal/keymanager/service.go:322-325 | two consecutive reads are one long read |
| XorReader.Reader.XorSeed | internal/keymanager/service.go:321-326 | in place, byte i is mixed with the seed at the next global offset, and nothing else changes |
| XorReader.Reader.Read | internal/keymanager/service.go:310-329 | byte i of the result is random[i] xor seed[(offset + i) mod len(seed)], the offset moves by n and the rest of the buffer stays; an error or an empty seed leaves the random bytes and uses no offsets |
| XorReader.InterleavedReadsAreOneRead | internal/keymanager/service.go:310-329 | under every interleaving each finished read starts at the offset where the one before ended, the free lock's offset is the number of bytes drawn, its byte j is mixed with seed[(start + j) mod len(seed)], and together the reads are one sequential read |
| Keystream.GenerateKeystream | internal/quantum/mixing.go:24-49 | exactly length bytes, a prefix of hash(key, counter 0) hash(key, counter 1) ..., byte i being byte i mod 32 of block i / 32 |
| Keystream.CounterValue | internal/quantum/mixing.go:31-36 | the four counter bytes are the base-256 digits of the counter modulo 2^32, most significant first |
| Keystream.PrefixStable | internal/quantum/mixing.go:24-49 | a shorter keystream is a prefix of a longer one |
| Keystream.CountersCollide | internal/quantum/mixing.go:31-36 | two blocks hash the same input exactly when their counters agree modulo 2^32 |
| Keystream.KeystreamRepeats | internal/quantum/mixing.go:24-49 | past 2^32 blocks the keystream repeats |

## Left out

- HTTP handlers, the web interface, middleware, configuration and wiring: input, output and presentation.
- The body of `fetch` and all encoding: a fetch is a step that fails or yields arbitrary bytes. Base64 is taken to be lossless.
- The database: each repository call is one atomic step and may fail as a whole. A negative n and the partial result returned next to an error are not modelled; no caller uses either.
- The AMQP library: declaring the topology is a step that succeeds or fails, and the broker may kill a channel or session at any step, including that one. Publishing and consuming are not modelled.
- RSA, AES-GCM, PEM encoding and the system's random generator: reduced to success or failure, or to the bytes they deliver. SHA-256 is any function to 32 bytes.
- Floating point: `igamc`, `normalCDF`, the logarithms of the entropy tests and the verdict thresholds. The statistics feeding them are exact; `CumulativeSums` uses reals and only that `normalCDF(-x) = 1 - normalCDF(x)`.
- Connection.Connection.Channel: no closer is at work while the object's method runs, since it holds the mutex; closers that finish outside it are in `Lifecycle` and `Calls`, where the theorems about all runs are. The machine opens channels only on live sessions and declares the topology only on live channels; a session's death does not by itself mark its channels dead, so both are checked.
- Collector.Scheduler.CollectEntropy: nobody consumes while the object's method runs; consumption during a refill is in `EntropySystem`, of which the method is shown to be a run.
- ApproximateEntropy.PhiCounts: from m = 32 on the maps are only said to count keys, since keys of 33 bits collide; the caller uses 5. The overflow of `1<<m` from m = 63 on is not modelled.
- Machine integers: the reader's offset and the counts are unbounded. The 32-bit pattern key and the keystream's four counter bytes are modelled with their wrap-around.
- Serial.NISTSerial: samples of fewer than two bits, on which the code indexes past the end; its callers pass whole bytes.
- Collector.Scheduler.Stop: a second call, which would panic on the closed channel.
- The ticker, the refill signal and `checkPoolStatus`, the contents of events, and logging.
- `countOnes`, the frequency tests, the other audit metrics and the LfD client's semaphore: single loops or library facts.
