# Verified model of the runtime learning, integrity and evidence code

This project models in Dafny the parts of the repository that keep state they must not lose, and
proves what they keep: the append-only learning store and the runtime above it, the integrity
kernels under them, the hash-chained dump directory, the stability recorder, crash observer and
route planner, and the byte-bounded memory ring.

Check everything with `dafny verify dfyconfig.toml`.

| files | what they model |
|---|---|
| `Bytes`, `Arith`, `Bitwise`, `Words32`, `Q16` | bytes and packed fields, division, bitwise operations, 32-bit words, 16-bit fractions |
| `Crc32c`, `Fold128`, `Neon4096`, `PageLayout` | CRC32C (section 12.1 of RFC 3720), the 128-bit fold, the sealed 4096-byte page, and which pages verify |
| `CrcLinear`, `CrcImages`, `CrcKernels`, `EmbeddedCrc` | the linearity of CRC32C, and the changes of four bytes that a block with its own checksum inside does not notice |
| `RflFormat`, `Predictor`, `PredictorExact`, `Latency`, `LearningModel`, `StoreSpec`, `StoreProofs`, `LearningStore` | the record log, the frequency predictor, the latency ring, and the store as a state machine and as a class |
| `StoreTails`, `StoreExamples`, `LatencyRuns`, `PredictorRuns`, `FrozenRuns`, `StoreAccounts` | stopped flushes over any bytes left behind, runs that reach the failing cases, and latency ring, predictor, frozen store and counters over whole runs |
| `SetMapping`, `Eviction`, `LogContents` | how contexts spread over the predictor, what is evicted, and what the log says about an observation |
| `HeaderTear`, `HeaderEpoch`, `HeaderFlush`, `HeaderRuns` | stopped header writes: of any two headers, of one epoch, of a flush, and over whole sessions |
| `Ratio`, `RuntimeSpec`, `LearningRuntime` | the overflow-free ratio and the mode machine with its validation table |
| `RuntimeGates`, `ValidationRuns`, `StableContext` | the gates of the runtime, what a validation counts for each context, and the runs of the self-tests for every length |
| `Streaming`, `Md5`, `Sha256`, `Sha512`, `Sha256x4` | streaming digests, their compression functions, and the four-lane form |
| `Primes`, `DigestConstants`, `DigestBits`, `DigestBits64` | what the constants and the round functions of the digests are |
| `Sha256Answer`, `Sha512Answer`, `Md5Answer`, `SelfTests` | known answers, derived round by round, and those of the self-tests |
| `DumpChain`, `DumpDirectory`, `DumpStorage`, `DumpTamper` | the predecessor chain, many writers over one directory, one writer in place, and altered files |
| `RecordChain`, `RecordRing`, `RecorderSpec`, `RecorderProofs`, `RecorderSamples`, `StabilityRecorder` | linked records, the overwriting ring, and the stability recorder |
| `CrashSpec`, `CrashRecords`, `CrashObserver`, `LinkedBytes` | the crash observer, and which bytes the links of both recorders cover |
| `Planner`, `PlanFields` | the branchless route planner |
| `HyperMemorySpec`, `HyperMemory`, `FrameSizes`, `AppendLimits` | the byte-bounded ring and its checkpoints |

Code that changes state is a class whose methods are proved against a function of the old state
(`StoreSpec`, `RuntimeSpec`, `RecorderSpec`, `CrashSpec`, `HyperMemorySpec`); the lemmas are about
those functions. System calls are parameters that say how far a call got, so that a failed call and
a crash at the same place leave the same file. Clocks, modification times and free space are
parameters too. SHA-256 and the parsers under the dump directory and the memory ring are parameters;
the dump directory assumes that no two of the file contents that occur have the same digest, and
`DumpDirectory.TwoWritersDone` shows such a case. CRC32C, the 64-bit FNV hash of the records, MD5 and
SHA-2 are modelled bit by bit.

Results that say where the code stops keeping a promise:

- An observation made while a failed flush has left the slab full updates the predictor and is then
  dropped from the log (`StoreExamples.FullSlabReached` is a run that gets there). A memory change that
  does not fit the 32 bits of a record can be replayed differently. `StoreProofs.KeptExactly` shows exactly
  when an observation keeps live model and log in agreement.
- Replay trusts the length of the file and the checksum of each record; the record count in the header
  is written but not read back. Bytes behind a bad record stay in the file until the next truncation
  and can come back when a flush is stopped before it: exactly when the 64 bytes behind what was
  written pass the check of a record (`StoreTails.StoppedFlushExact`, `StoreTails.StaleRecordsReturn`).
- A header or record whose bytes change across the edge of its checksum can pass its check again: at
  most one change for each place, and no other change of four bytes at all (`EmbeddedCrc.BurstExact`).
- A header write stopped inside the record count can be accepted when the epoch has risen since the
  last one: by 7298688 or more, and not before (`HeaderTear.TornHeaderExact`, `HeaderRuns.SessionHeader`,
  `HeaderRuns.TornHeaderReached`).
- The stability recorder comes to rest on every constant stream exactly for triggers above 15
  (`RecorderProofs.Settles`, `RecorderProofs.SmallTriggerFails`).
- The planner's comparison by the top bit of a difference is wrong for cycle budgets above 0x800002BC
  and for known-good routes above 0x80000003 (`Planner.ScoresExact`, `Planner.PlanExact`,
  `Planner.MitigateExact`).
- After a restore into a smaller memory ring the eviction count misses exactly the records that are
  larger than the new capacity (`HyperMemorySpec.RestoreSound`, `HyperMemorySpec.RestoreLosesCount`).
- A writer killed, or failing, between two links leaves a dump directory that refuses every further
  dump until someone inspects it (`DumpDirectory.LeftBehind`, `DumpDirectory.RefusedForever`,
  `DumpDirectory.HalfDumpBlocks`).
- Rewriting a dump together with its digest file, or removing both, is noticed exactly when another dump
  names the old one as its predecessor; the newest dump of a chain and one without a chain can be
  replaced unnoticed (`DumpTamper.ForgedExact`, `DumpTamper.WithdrawnExact`). Any change to dumps alone or
  to digest files alone is noticed (`DumpTamper.SoundDetermined`).
- A freeze whose second header write fails answers with an error and has frozen the store all the same
  (`FrozenRuns.FreezeDecides`).
- The bound on the successes of a context never decides: while no counter is full it follows from the
  bound on the errors (`RuntimeGates.ErrorsDecide`).
- A context that lost its entry in a full set of the validation table starts again from zero, so its
  counters are at most, and with at most four contexts in the set exactly, what it earned
  (`ValidationRuns.ContextScores`).
- The comment on the magic number in learning_store.h spells it RAFAFRL1; the bytes that the code writes
  spell RAFARFL1, and the model follows the code (`LogContents.HeaderLayout`).

## Model

| member | source | states |
|---|---|---|
| StoreProofs.ReplayEqualsLive | android/app/native/learning_store.c:294-328 | over every run of init, mode change, observe, flush, freeze and close, with any system call failing in it, a close without error followed by opening rebuilds the live predictor table, all counters, the next sequence number and the memory high-water mark; cost averages too when no cost was clamped |
| StoreProofs.AdmissibleRunExists | android/app/native/learning_store.c:330-403 | such runs exist: opening a new file, learning, one observation of any content in range, and a close without error |
| StoreProofs.RoomIsNecessary | android/app/native/learning_store.c:451-542 | an accepted observation in range keeps the agreement of store and log if and only if the slab has room: a slab left full by a failed flush is the one case in which it is lost |
| StoreProofs.ReopenRecovers | android/app/native/learning_store.c:631-645 | a close without error followed by opening recovers every record, committed or still buffered, with no tail reported |
| StoreProofs.RunKeeps | android/app/native/learning_store.c:330-403 | every run keeps the committed records on disk and the live model equal to the replay of the log |
| StoreProofs.StepKeeps | android/app/native/learning_store.c:405-423 | the same invariant, kept by every single operation |
| StoreProofs.FlushKeepsLog | android/app/native/learning_store.c:253-270 | however a flush fails, committed records stay, and committed and buffered records together are the same as before |
| StoreProofs.CrashDuringFlush | android/app/native/learning_store.c:253-270 | stop a flush after any byte of the slab, or around the truncation or the header: replay finds exactly the committed records and the slab records that are complete in the bytes written, and reports a tail exactly when the last one is incomplete |
| StoreProofs.ReopenAfterCrash | android/app/native/learning_store.c:294-328 | after such a stop, opening succeeds if and only if the header can be read, and the model is then the replay of the surviving records |
| StoreProofs.FlushKeepsClean | android/app/native/learning_store.c:253-270 | no failed flush leaves anything behind the committed records but the beginning of what is still buffered |
| StoreProofs.StepKeepsClean | android/app/native/learning_store.c:451-542 | while the store stays open every operation keeps the condition of the crash theorem |
| StoreProofs.HeaderSurvives | android/app/native/learning_store.c:243-251 | a flush that does not stop inside the header write leaves a readable header |
| StoreTails.StoppedFlush | android/app/native/learning_store.c:253-270 | the crash theorem for any bytes behind the committed records: stop a flush anywhere, and replay finds the committed records, the slab records written whole, and whatever it accepts of the bytes left behind them |
| StoreTails.StoppedFlushExact | android/app/native/learning_store.c:253-270 | the recovered log is exactly the committed records and the slab records written whole if and only if the 64 bytes behind them are missing or fail the check of a record |
| StoreTails.StoppedFlushPrefix | android/app/native/learning_store.c:253-270 | the recovered log is the committed records and some beginning of the slab if and only if what replay accepts behind the whole records is again slab |
| StoreTails.ReopenAfterStop | android/app/native/learning_store.c:294-328 | after any such stop, opening succeeds if and only if the header can be read, and the model is then the replay of exactly those records |
| StoreTails.StaleRecordsReturn | android/app/native/learning_store.c:263-265 | a run in which the condition fails: open a file whose first record is damaged, start learning, observe once, stop the flush between slab write and truncation; opened again, the log holds the new record and the stale one behind the damage |
| StoreExamples.FullSlabReached | android/app/native/learning_store.c:486-516 | the slab gets full: sixty-four observations whose flush fails are an admissible run, and after one more observation no log agrees with the live model |
| HeaderTear.TornHeaderExact | android/app/native/learning_store.c:243-251 | a header write that changes record count and epoch, both below 2^32, stopped after any number of bytes, leaves a header that is accepted if and only if it is the whole old or the whole new one, or the write stopped inside the record count and the change of the epoch, eight bytes on in the register, equals the change of the count written so far |
| HeaderTear.TornHeaderRefused | android/app/native/learning_store.c:243-251 | when only one of record count and epoch changes, a write stopped between the count and the checksum is refused with a checksum error |
| HeaderTear.ChecksumsDiffer | android/app/native/learning_store.c:87-92 | headers that differ in a record count below 2^32 have different checksums |
| HeaderTear.HeaderDetermined | android/app/native/learning_store.c:87-92 | an accepted header changed in any four consecutive bytes is accepted again if and only if nothing changed or the change is the one blind spot of that window, of which there are five, all across an edge of the checksum |
| HeaderTear.TornHeaderStatus | android/app/native/learning_store.c:243-251 | for any two headers with the same last word: a header write stopped up to the checksum is accepted if and only if the old checksum fits what is there, later if and only if the header is complete, and it is never refused for its format |
| HeaderEpoch.TornHeaderNext | android/app/native/learning_store.c:405-423 | for any rise of the count below 2^32: while the epoch rises by at most one between two header writes, or the count stays, a stopped write is accepted if and only if it left the whole old or the whole new header |
| HeaderFlush.TornHeaderFlush | android/app/native/learning_store.c:253-270 | a header write of a flush, with a count that rises by at most one slab and an epoch that has risen by less than 7298688 since the last header write: at every stopping point the file is accepted if and only if it holds the whole old or the whole new header |
| HeaderFlush.TornHeaderAccepted | android/app/native/learning_store.c:405-423 | the limit is exact: an epoch that rises by 7298688 hides a record count that rises from 255 to 262 and is torn after its first byte |
| HeaderFlush.LittleAdds | android/app/native/learning_store.c:253-270 | adding numbers is adding their stored bytes with carries, which is what ties a rising count and a rising epoch to the checksum |
| HeaderRuns.FlushTears | android/app/native/learning_store.c:243-270 | the file a flush leaves holds the old header, or the old one torn by the new one where the header write stopped, whatever else failed |
| HeaderRuns.RunLevel | android/app/native/learning_store.c:405-423 | over any run with truncations that do not fail and header writes that are not stopped the header on disk has the count of the store and is behind by at most one epoch per call |
| HeaderRuns.NewFileLevel | android/app/native/learning_store.c:364-378 | such a run can start from a file just made |
| HeaderRuns.ExistingFileLevel | android/app/native/learning_store.c:379-403 | or from one that holds a header and as many records as it says |
| HeaderRuns.SessionHeader | android/app/native/learning_store.c:243-270 | over any such run of fewer than 7298688 calls the header that the next call leaves, wherever it is stopped, is accepted if and only if it is the whole old or the whole new one |
| HeaderRuns.TornHeaderReached | android/app/native/learning_store.c:405-423 | a run that reaches the limit: 255 records on file, 7298688 mode changes, seven observations and a stopped flush leave a header that is accepted and is neither the old nor the new one |
| EmbeddedCrc.BurstExact | android/app/native/learning_store.c:87-99 | for a 64-byte block with its checksum in the last word or the one before: of the changes of any four consecutive bytes exactly the listed blind spots go unnoticed, one for each of seven of the nine places across an edge of the checksum and none elsewhere |
| EmbeddedCrc.DifferenceDecides | android/app/native/learning_store.c:74-99 | whether a changed block passes depends on the change alone, not on the block |
| CrcLinear.FeedLinear | android/app/native/learning_store.c:74-85 | the register of a combined message is the combination of the registers |
| CrcLinear.StepsInjective | android/app/native/learning_store.c:74-85 | running zero bytes through the register loses nothing |
| LearningModel.ReplayMatchesLive | android/app/native/learning_store.c:272-292 | replaying the record of an observation has exactly the effect the observation had on the model |
| LearningModel.AppendAgrees | android/app/native/learning_store.c:451-542 | appending the record an observation produced keeps live model and replayed model in agreement |
| LearningModel.DroppedDisagrees | android/app/native/learning_store.c:486-516 | an observation whose record is dropped has consumed a sequence number, so no replay can agree afterwards |
| LearningModel.SameDecisions | android/app/native/learning_store.c:179-215 | neither prediction nor the choice of a victim depends on the cost averages |
| RflFormat.RecordRoundTrip | android/app/native/learning_store.c:94-99 | an encoded record passes its check and decodes to itself |
| RflFormat.RecordBurstRejected | android/app/native/learning_store.c:94-99 | a valid record changed in any four consecutive bytes, also across body and checksum, passes its check again if and only if nothing changed or the change is the one blind spot of the windows at 57 and 58 |
| RflFormat.HeaderRoundTrip | android/app/native/learning_store.c:87-92 | an encoded header is accepted and decodes to itself |
| RflFormat.RecoverEncoded | android/app/native/learning_store.c:294-328 | whole records in front are recovered whatever bytes follow |
| RflFormat.BadRecordEndsLog | android/app/native/learning_store.c:294-328 | a record that fails its check ends the recovered log exactly there and sets the tail flag |
| RflFormat.RecoverPrefix | android/app/native/learning_store.c:294-328 | any byte prefix of written records gives back exactly the records complete in it; a tail is reported exactly when it ends inside a record |
| PredictorExact.ExactIff | android/app/native/learning_store.c:179-215 | a set stores every pair observed in it with its exact saturated frequency if and only if at most four different pairs were observed in it |
| PredictorExact.TableSound | android/app/native/learning_store.c:179-215 | always: no two ways hold the same pair, and a stored count is between one and the true saturated frequency |
| PredictorExact.EvictionNeedsFivePairs | android/app/native/learning_store.c:195-205 | an eviction can only happen when a fifth different pair comes to the set |
| PredictorExact.PredictionIsExact | android/app/native/learning_store.c:148-177 | with at most four pairs in the set the prediction is the most frequent candidate, the lowest on ties, with exact support and confidence floor(65535 * frequency / support) |
| PredictorExact.SupportCounts | android/app/native/learning_store.c:148-177 | up to 2^32 - 1 observations the support is the number of observations of the context |
| PredictorRuns.RunTable | android/app/native/learning_store.c:451-485 | after any run of the store, failures and resets included, its table is the one built by the lessons of the records it opened with and of every accepted observation in a learning mode since, stored or not, up to the last reset |
| PredictorRuns.RunPrediction | android/app/native/learning_store.c:432-449 | so a prediction of a running store is exact counting over everything learned in the run while at most four different pairs fell into the set of the context |
| PredictorRuns.RunExact | android/app/native/learning_store.c:179-215 | and a set of its table is exact if and only if at most four different pairs fell into it over the whole run |
| Predictor.LearnInPlace | android/app/native/learning_store.c:179-215 | the loops reinforce the hit, or replace the vacant or least valuable way, and report whether one more entry is in use |
| Predictor.FindWay | android/app/native/learning_store.c:179-205 | the search finds the hit, else the first unused way, else the weakest way |
| Predictor.PredictFrom | android/app/native/learning_store.c:148-177 | the voting loop computes the prediction that the exactness results are about |
| Latency.RingIsRotation | android/app/native/learning_store.c:217-221 | from any emptied ring, whatever old samples it holds, the ring holds exactly the last 256 latencies, in rotated order |
| Latency.PercentileIsNearestRank | android/app/native/learning_store.c:223-241 | the reported value is the nearest-rank percentile of the last 256 latencies since the ring was emptied |
| LatencyRuns.RunLatency | android/app/native/learning_store.c:612-629 | after any run, resets and failures included, the ring of an open store is the ring of exactly the latencies since the last reset |
| LatencyRuns.ReportedPercentile | android/app/native/learning_store.c:564-566 | so after any run a reported percentile is the nearest-rank percentile of the last 256 latencies since the last reset |
| Latency.PercentilesOrdered | android/app/native/learning_store.c:564-566 | a lower percentile is never larger than a higher one |
| Latency.SortInPlace | android/app/native/learning_store.c:223-241 | the insertion loop sorts its copy of the samples |
| Latency.SortProperties | android/app/native/learning_store.c:223-241 | sorting orders the samples and keeps, for every bound, how many of them are at most the bound |
| Latency.ComputePercentile | android/app/native/learning_store.c:223-241 | the method computes the percentile of the ring |
| LearningStore.Store.Init | android/app/native/learning_store.c:330-403 | opening in memory and on disk: configuration check, new file, header check and replay, with every failure outcome |
| LearningStore.Store.ReplayFile | android/app/native/learning_store.c:294-328 | the batched replay loops rebuild the model of exactly the recoverable records, their number, and the tail flag |
| LearningStore.Store.ReplayBatch | android/app/native/learning_store.c:294-328 | one slab of replay stops at the first record that fails its check |
| LearningStore.Store.Observe | android/app/native/learning_store.c:451-542 | one observation changes table, counters, slab, latency ring and file as specified, in all error cases too |
| LearningStore.Store.FlushSlab | android/app/native/learning_store.c:253-270 | slab write, truncation, header write and synchronisation, each of which can stop |
| LearningStore.Store.SetMode | android/app/native/learning_store.c:405-423 | entering off or frozen flushes first and fails with it; a change of mode bumps the epoch |
| LearningStore.Store.PredictFor | android/app/native/learning_store.c:432-449 | prediction is answered only in the learning, predicting and frozen modes |
| LearningStore.Store.Freeze | android/app/native/learning_store.c:594-610 | freeze flushes, bumps the epoch and writes the header a second time |
| LearningStore.Store.ResetVolatile | android/app/native/learning_store.c:612-629 | reset clears the table, the prediction counters and the latencies, only in a mode that does not accept observations, and leaves the log alone |
| LearningStore.Store.Close | android/app/native/learning_store.c:631-645 | close flushes and forgets everything but the file, also when the flush fails |
| LearningStore.Store.Overheads | android/app/native/learning_store.c:564-566 | p50 <= p95 <= p99, each the percentile of the ring |
| Ratio.RatioScaled | android/app/native/rafaelia_freestanding_l0.c:16-52 | for all 64-bit numerators and denominators the shift-add loop returns min(scale, floor(numerator * scale / denominator)), 0 for a zero denominator, and no register overflows |
| LearningRuntime.IsCandidate | android/app/native/learning_runtime.c:81-100 | the fixed-point comparison decides exactly the rational conditions on support, error rate and success rate |
| LearningRuntime.ErrorBound | android/app/native/learning_runtime.c:81-100 | at most 1000 parts per million means incorrect * 1000000 < 1001 * predictions |
| LearningRuntime.ConfidenceBound | android/app/native/learning_runtime.c:81-100 | confidence at least 65469 means correct * 65535 >= 65469 * predictions |
| LearningRuntime.Learner.CountCandidates | android/app/native/learning_runtime.c:81-100 | the count is the number of qualifying contexts, or zero when latency or memory exceed their budgets |
| RuntimeSpec.AlwaysConsistent | android/app/native/learning_runtime.c:102-157 | over every sequence of runtime calls the store mode is the image of the logical mode, observations = predictions + misses, predictions = correct + incorrect, and the contexts counter is the number of occupied, pairwise distinct entries |
| RuntimeSpec.FrozenValidation | android/app/native/learning_runtime.c:168-231 | however long the runtime stays in the validating mode, and whatever is called, the model and the logged records are those it entered the mode with |
| RuntimeSpec.FrozenStep | android/app/native/learning_runtime.c:130-157 | a single call made and ended in the validating mode changes neither model nor log |
| RuntimeSpec.ValidationScores | android/app/native/learning_runtime.c:168-231 | the counters after a stay in the validating mode are the score of the frozen model on the samples observed |
| RuntimeSpec.EnteringClears | android/app/native/learning_runtime.c:130-157 | entering the validating mode from another one starts the counters at zero |
| RuntimeSpec.RecordKeepsTable | android/app/native/learning_runtime.c:55-79 | noting an outcome keeps every context in its own set and in at most one entry |
| RuntimeSpec.SlotFindsContext | android/app/native/learning_runtime.c:55-79 | the slot of a context is the entry that holds it, if one does |
| LearningRuntime.Learner.Observe | android/app/native/learning_runtime.c:168-231 | an observation goes to the store, or in the validating mode only to the validation table and the counters |
| LearningRuntime.Learner.SetMode | android/app/native/learning_runtime.c:130-157 | a mode change flushes, changes the store mode to the image and clears the validation state when it has to |
| LearningRuntime.Learner.Open | android/app/native/learning_runtime.c:102-128 | opening opens the store, probes the page kernel and leaves a blank runtime |
| Neon4096.BurstRejected | android/app/native/neon4096_core.c:158-210 | for every page that verifies, any change within four consecutive bytes anywhere in its 4096, also across fields and in the page checksum, makes verification fail |
| Neon4096.SealedPageVerifies | android/app/native/neon4096_core.c:158-210 | a page just sealed verifies |
| Neon4096.FlatInjective | android/app/native/neon4096_core.c:135-146 | the 4096 bytes determine every field of the page |
| Neon4096.FlippedBit | android/app/native/neon4096_core.c:216-273 | flipping one bit of the hot region of a valid page gives a checksum error |
| Neon4096.RuntimeProbe | android/app/native/neon4096_core.c:216-273 | the self-test never reports a failure |
| Neon4096.Page.Seal | android/app/native/neon4096_core.c:158-185 | sealing overwrites every control field and refuses oversized payloads and unknown routes |
| Neon4096.Page.Verify | android/app/native/neon4096_core.c:187-210 | verification decides contract, regional checksums, page checksum and fold, with the source's order of errors |
| Neon4096.Page.ComputePageCrc | android/app/native/neon4096_core.c:135-146 | the checksum computed piece by piece is that of the flat page with its checksum field cleared |
| Neon4096.Page.ComputePayloadFold | android/app/native/neon4096_core.c:148-156 | the three regional folds combine to the fold of the whole 4032-byte payload, by bytes and by vectors |
| Crc32c.BurstDetected | android/app/native/neon4096_core.c:20-35 | equal checksums and equality outside four consecutive bytes mean equality |
| Crc32c.FeedInjective | android/app/native/neon4096_core.c:20-30 | for fixed data the final register determines the starting register |
| Crc32c.WindowInjective | android/app/native/neon4096_core.c:20-30 | from the same register, different four-byte windows lead to different registers |
| Crc32c.FeedConcat | android/app/native/neon4096_core.c:20-30 | feeding in pieces is feeding the concatenation |
| Crc32c.Update | android/app/native/neon4096_core.c:20-30 | the bit loops compute the register |
| Fold128.FoldConcat | android/app/native/neon4096_core.c:37-54 | pieces of a multiple of 16 bytes fold separately and combine |
| Fold128.FoldVector | android/app/native/neon4096_core.c:46-54 | the 16-byte vector fold with its byte tail equals the byte fold for every size |
| Fold128.FoldScalar | android/app/native/neon4096_core.c:37-44 | the byte loop computes the fold |
| Streaming.DigestChunks | android/app/native/hash_bitexact_digest.h:36-39 | for every way of cutting every message into update calls the output is the digest of the whole message |
| Streaming.DigestOnce | android/app/native/hash_bitexact_digest.h:39 | the one-shot digest is the same function |
| Streaming.Context.Update | android/app/native/hash_bitexact_digest.h:49 | an update call appends its data to the message; fewer bytes than a block stay buffered and everything before them is folded |
| Streaming.Context.Remainder | android/app/native/hash_bitexact_digest.h:49 | at every moment the number of buffered bytes is the total length modulo the block size, and the 64-bit counter shows it too |
| Streaming.Context.Final | android/app/native/hash_bitexact_digest.h:50 | the output is the digest of everything updated so far |
| Streaming.Context.BeginPadding | android/app/native/hash_bitexact_digest.h:78 | the one bit is appended, and the block is filled and folded when the length no longer fits |
| Streaming.PaddedBlocks | android/app/native/hash_bitexact_digest.h:50 | the padded message ends in one block, or in two when the length does not fit |
| Streaming.PaddingInjective | android/app/native/hash_bitexact_digest.h:50 | padding tells messages apart as long as the length field does |
| Streaming.FoldConcat | android/app/native/hash_bitexact_digest.h:49 | whole blocks in front are folded first |
| Sha256.PaddingConforms | android/app/native/hash_bitexact_digest.h:50 | for messages below 2^61 bytes the length field is exact (section 5.1.1 of FIPS 180-4) and padding is injective |
| Sha512.PaddingConforms | android/app/native/hash_bitexact_digest.h:78 | below 2^64 bytes the two length registers hold the exact 128-bit length (section 5.1.2 of FIPS 180-4) and padding is injective |
| Md5.LengthConforms | android/app/native/hash_bitexact_digest.h:38 | the length field is the low 64 bits of the bit length for every message (section 3.2 of RFC 1321) |
| Sha256.CompressInPlace | android/app/native/hash_bitexact_digest.h:41-47 | the schedule and round loops compute the compression function |
| Sha512.CompressBlock | android/app/native/hash_bitexact_digest.h:59-75 | the schedule and round loops compute the compression function |
| Md5.CompressBlock | android/app/native/hash_bitexact_digest.h:9-34 | the four round loops compute the compression function |
| Sha256x4.LanesRefineScalar | android/app/native/hash_bitexact_neon4.h:36-44 | every lane of the vector compression is the scalar compression of that lane's block, for all states and blocks |
| Sha256x4.LaneSchedule | android/app/native/hash_bitexact_neon4.h:39-40 | lane j of the vector schedule is the schedule of block j |
| Sha256x4.CompressVectors | android/app/native/hash_bitexact_neon4.h:36-44 | the vector loops compute the vector compression function |
| Sha256x4.OneBlock | android/app/native/hash_bitexact_neon4.h:46 | one block per lane from the initial state |
| Words32.StoreLoad | android/app/native/hash_bitexact_core.h:38-42 | storing and loading a word, big and little endian, is the identity |
| DumpChain.ChainHead | tools/runtime_stability_storage.py:145-196 | a head is returned exactly when the chained records form one list whose oldest element follows GENESIS or an unchained record, and it is the newest element; every other input is refused |
| DumpChain.Walk | tools/runtime_stability_storage.py:180-190 | the walk ends at the root; a record is never visited twice, so the cycle branch cannot be reached |
| DumpChain.Successors | tools/runtime_stability_storage.py:154-166 | a missing predecessor or a fork is reported only when there is no list |
| DumpChain.ListUnique | tools/runtime_stability_storage.py:145-196 | at most one list fits the records |
| DumpChain.ListMeansOneHead | tools/runtime_stability_storage.py:168-178 | in a list exactly the newest record has no successor |
| DumpChain.NotRevisited | tools/runtime_stability_storage.py:180-190 | without forks a walk from a head cannot come back to a visited record |
| DumpChain.AppendChained | tools/runtime_stability_storage.py:332-340 | a dump that names the expected predecessor becomes the head in front of the old list |
| DumpChain.ExpectedIsFree | tools/runtime_stability_storage.py:332-340 | nothing has been appended to the expected predecessor yet |
| DumpDirectory.RunGrows | tools/runtime_stability_storage.py:291-344 | over every interleaving of writers, failing or killed at every step, no dump changes or disappears and the dumps stay one list that extends the old one |
| DumpDirectory.AtMostOneWins | tools/runtime_stability_storage.py:332-340 | of all writers that hold the same predecessor at most one succeeds |
| DumpDirectory.WriterSucceeds | tools/runtime_stability_storage.py:291-344 | a writer that finds the lock free, an accepted directory, a new file name and its predecessor due is done after its steps, whatever the others hold, and the directory has exactly that dump more |
| DumpDirectory.WriterRefused | tools/runtime_stability_storage.py:291-344 | in every other case it is stopped and the directory is as before |
| DumpDirectory.OneIsDue | tools/runtime_stability_storage.py:226-247 | in an accepted directory exactly one predecessor is due: GENESIS, the head of the list, or before anything is chained the newest dump by modification time and name |
| DumpDirectory.WriterKilled | tools/runtime_stability_storage.py:92-108 | a writer that would succeed, killed after n of the six steps, leaves an accepted directory if and only if n is 0 or 6 |
| DumpDirectory.HalfDumpBlocks | tools/runtime_stability_storage.py:199-223 | a run in which a writer is killed after three steps: whatever follows, no writer is ever done |
| DumpDirectory.TwoWritersDone | tools/runtime_stability_storage.py:291-344 | a run in which two writers append one after the other and both are done, so that the assumptions of the results above can be met |
| DumpDirectory.RefusedForever | tools/runtime_stability_storage.py:199-223 | a directory that is not accepted is never written to again and no writer is done that was not done before |
| DumpDirectory.LeftBehind | tools/runtime_stability_storage.py:92-108 | a writer killed in the middle leaves an accepted directory exactly when it had made no file or all of them; an exception, which cleans up, exactly when it struck before the first or after the last link |
| DumpDirectory.RunKeeps | tools/runtime_stability_storage.py:323-343 | every run keeps mutual exclusion, the state of the unfinished publication, and the log of successes |
| DumpDirectory.StepKeeps | tools/runtime_stability_storage.py:323-343 | the same for one step of one writer |
| DumpDirectory.AppendKeepsSound | tools/runtime_stability_storage.py:332-343 | appending an accepted dump to an accepted directory gives an accepted directory whose head is the new dump |
| DumpStorage.Storage.ValidateIntegrity | tools/runtime_stability_storage.py:199-223 | validation accepts exactly the directories without temporary files, with a correct digest file for every dump and no other, and with one list |
| DumpStorage.Storage.VerifiedRecords | tools/runtime_stability_storage.py:111-142 | the loop over the listing returns the record of every dump and the last file listed for each digest, or fails exactly when a digest file or a dump is wrong |
| DumpStorage.Storage.LatestDump | tools/runtime_stability_storage.py:226-247 | the predecessor returned is the one that is due: GENESIS, the head, or the newest dump before anything is chained; nothing for a directory that is not accepted |
| DumpStorage.Storage.Newest | tools/runtime_stability_storage.py:240-247 | of the legacy dumps the newest is taken |
| DumpStorage.Storage.PublishExclusive | tools/runtime_stability_storage.py:92-108 | one file is made under a temporary name, linked and cleaned up, with an exception or a kill at every step |
| DumpStorage.Storage.WriteAppendOnly | tools/runtime_stability_storage.py:291-344 | without interruption the dump is appended if and only if limits, directory, predecessor and name allow it, and nothing changes otherwise; interrupted, exactly the steps made by then remain |
| RecorderProofs.DumpsAreEarned | tools/frida-runtime-stability-recorder.c:284-297 | under a fixed policy a dump follows at least the required number of accepted events in a row at or above the trigger, and between two releases at most the allowed number of records is committed |
| RecorderProofs.CountersExact | tools/frida-runtime-stability-recorder.c:284-297 | the counters are the length of the unstable run modulo 2^32 and the exact size of the open episode |
| RecorderProofs.CountersStep | tools/frida-runtime-stability-recorder.c:284-297 | what one accepted event does to the counters and the decision |
| RecorderProofs.Settles | tools/frida-runtime-stability-recorder.c:245-291 | on any stream with constant samples, from any state, a trigger above 15 gives only Stable decisions from event 252 on |
| RecorderProofs.SmallTriggerFails | tools/frida-runtime-stability-recorder.c:48-60 | the bound is exact: for every trigger of at most 15 and every kind of event that the policy accepts, one slow event followed by calm ones is reported as unstable for ever |
| RecorderProofs.NothingAccepted | tools/frida-runtime-stability-recorder.c:239-243 | a policy that accepts no kind of event reports only Stable, whatever the trigger |
| RecorderProofs.NeverSettles | tools/frida-runtime-stability-recorder.c:265-273 | a baseline once below 65520 stays there because of the rounding, so a trigger of at most 15 never comes to rest |
| RecorderProofs.CommittedLinked | tools/frida-runtime-stability-recorder.c:147-186 | the records a run commits form one chain of hashes from its start to its end |
| RecorderSpec.CastsLoseNothing | tools/frida-runtime-stability-recorder.c:42-135 | no 16-bit cast in the averages, distances, pressures and the instability drops a bit |
| Q16.SettledIsFixed | tools/frida-runtime-stability-recorder.c:48-60 | an average stays where it is exactly at its input or within 2^shift - 1 below it; otherwise it gets strictly closer and never passes |
| Q16.SmoothBetween | tools/frida-runtime-stability-recorder.c:48-60 | a step stays between old value and input and is the exact mean rounded down |
| Q16.WithinRounding | tools/frida-runtime-stability-recorder.c:48-60 | 57 steps of the fast and 193 of the slow average come within the rounding from anywhere |
| Q16.Halves | tools/frida-runtime-stability-recorder.c:48-60 | the distance to a constant input is halved at least every 2^shift steps |
| StabilityRecorder.Recorder.Observe | tools/frida-runtime-stability-recorder.c:221-305 | one event updates averages, counters, ring and clock as specified; the records in the ring stay linked |
| StabilityRecorder.Recorder.CommitRecord | tools/frida-runtime-stability-recorder.c:147-186 | the record of the event, linked to the chain, replaces the oldest one in a full ring |
| StabilityRecorder.Recorder.Drain | tools/frida-runtime-stability-recorder.c:307-330 | the oldest records are returned in order and the others stay |
| StabilityRecorder.Recorder.Init | tools/frida-runtime-stability-recorder.c:196-219 | a wrong profile version or silicon tag is refused and changes nothing; otherwise everything starts over |
| StabilityRecorder.Recorder.ResetEpoch | tools/frida-runtime-stability-recorder.c:361-375 | everything is cleared but the silicon tag |
| RecorderSpec.ContentDetermines | tools/frida-runtime-stability-recorder.c:175-180 | the linked bytes determine every field of a record |
| RecordRing.RunIsWindow | tools/frida-runtime-stability-recorder.c:147-186 | over any interleaving of commits and partial drains the ring holds exactly the newest records of the history that have neither been drained nor overwritten |
| RecordRing.DrainIsNext | tools/frida-runtime-stability-recorder.c:307-330 | a drain returns the records that follow everything gone before, without gap or repetition |
| RecordRing.Ring.Commit | tools/frida-runtime-stability-recorder.c:183-185 | the index arithmetic implements a queue that drops its oldest record when full |
| RecordRing.Ring.Drain | tools/frida-runtime-stability-recorder.c:319-329 | the index arithmetic returns and removes the oldest records of the queue |
| RecordChain.AlteredRecordShows | tools/frida-runtime-stability-recorder.c:28-40 | changing one byte of a record always changes its link |
| RecordChain.DifferenceStays | tools/frida-runtime-stability-recorder.c:175-181 | different links stay different under the same next record, except exactly the pair of zero and the offset basis |
| RecordChain.AlteredHistoryShows | tools/frida-runtime-stability-recorder.c:175-186 | over a whole history: one altered byte in one record changes the final link, unless the links of the two histories come to be zero and the offset basis somewhere between that record and the last, and exactly then it does not |
| RecordChain.AlteredLogShows | tools/frida-runtime-stability-recorder.c:147-186 | two linked logs that differ in one byte of one record end in different stored links, exactly unless two links stored from that record on, before the last, are zero and the offset basis |
| RecordChain.HashInjective | tools/frida-runtime-stability-recorder.c:28-40 | for fixed bytes the hash determines the value it started from |
| RecordChain.HashBytes | tools/frida-runtime-stability-recorder.c:28-40 | the loop computes the hash |
| CrashSpec.EpochSorted | tools/frida-runtime-crash-observer.c:61-70 | within one epoch timestamps are positive and never go back |
| CrashSpec.QueueIsRecent | tools/frida-runtime-crash-observer.c:99-103 | the queue holds the newest records of the epoch, at most 128 |
| CrashSpec.ChainSurvives | tools/frida-runtime-crash-observer.c:133-150 | the chain of hashes runs through all epochs, drains and rejections, and both counters are exact modulo 2^32 |
| CrashSpec.ContentDetermines | tools/frida-runtime-crash-observer.c:91-96 | the linked bytes determine every field of a record |
| CrashSpec.RejectionOnlyCounts | tools/frida-runtime-crash-observer.c:61-70 | a rejected event changes nothing but the count of rejections |
| CrashObserver.Observer.RecordEvent | tools/frida-runtime-crash-observer.c:52-106 | status and new state for unknown kinds, zero or backward times and accepted events |
| CrashObserver.Observer.Drain | tools/frida-runtime-crash-observer.c:108-131 | the oldest records are returned in order and the others stay |
| CrashObserver.Observer.ResetEpoch | tools/frida-runtime-crash-observer.c:133-150 | queue and clock are cleared, chain and counters go on |
| Planner.PlanIsBest | tools/frida-debugger-class-a-autotune.c:210-241 | the plan is the first route with maximal score and reports that score; for cycle budgets up to 0x800002BC the scores are those of the branching meaning; the flags say whether mitigation is due and the route changed |
| Planner.PlanExact | tools/frida-debugger-class-a-autotune.c:210-241 | the plan is the one that the branching meaning of the scores asks for if and only if the budget is at most 0x800002BC, the small-cache bonus is due anyway or changes nothing, or it does not lift the cache-local route to the first place |
| Planner.ScoresExact | tools/frida-debugger-class-a-autotune.c:94-145 | the branchless scores equal their branching meaning if and only if the budget is at most 0x800002BC, the small-cache bonus is due anyway, or the score is already one |
| Planner.HugeBudgetFails | tools/frida-debugger-class-a-autotune.c:120-133 | with the largest budget the cache-local route is planned although the generic one scores highest |
| Planner.SelectBestIsFirst | tools/frida-debugger-class-a-autotune.c:147-172 | the masked selection returns the first route with maximal score |
| Planner.MaskGeIs | tools/frida-debugger-class-a-autotune.c:27-32 | the comparison mask is right exactly when the operands are less than 2^31 apart, or the right one is larger by exactly 2^31 |
| Planner.MaskNonzeroIs | tools/frida-debugger-class-a-autotune.c:21-25 | the mask is all ones exactly for nonzero values |
| Planner.SelectIs | tools/frida-debugger-class-a-autotune.c:34-44 | selection by a full or empty mask is a conditional |
| Planner.SaturatingAddIs | tools/frida-debugger-class-a-autotune.c:46-52 | the addition stops at one |
| Planner.MitigateExact | tools/frida-debugger-class-a-autotune.c:276-333 | mitigation keeps the plan exactly when every limit holds, the route is allowed and no fault is flagged; otherwise it takes the known-good route, raises all three flags and does not lower the confidence; the route is one of the four exactly when the known-good route is at most 0x80000003 |
| Planner.RiskWordIs | tools/frida-debugger-class-a-autotune.c:283-311 | the risk word is one flag per broken limit united with the fault flags |
| Planner.KnownGoodIs | tools/frida-debugger-class-a-autotune.c:64-71 | a known-good route above 3 is replaced by the generic one, except above 0x80000003 |
| Planner.FailoverKeepsRollback | tools/frida-debugger-class-a-autotune.c:243-257 | a failover stays on the previous route exactly when that one was rolled back to and otherwise plans anew; it adds the failover flag and no other, and combining its token with the previous one gives the token of the plan |
| Planner.RollbackTwice | tools/frida-debugger-class-a-autotune.c:259-273 | a second rollback to the same route gives back the token and keeps route and flags; the confidence never falls |
| HyperMemorySpec.AppendsFromFresh | modules/runtime-learning-engine/hypermemory-runtime.ts:157-199 | after any appends to a fresh ring it is exactly the longest suffix of the accepted history that fits, sequences are contiguous, and evictions + records = next sequence - 1 |
| HyperMemorySpec.FitIsLongest | modules/runtime-learning-engine/hypermemory-runtime.ts:177-185 | no longer suffix fits the capacity |
| HyperMemorySpec.EvictIsFit | modules/runtime-learning-engine/hypermemory-runtime.ts:177-198 | evicting from the old end until there is room and pushing keeps the longest suffix that fits |
| HyperMemorySpec.AppendKeepsSound | modules/runtime-learning-engine/hypermemory-runtime.ts:157-199 | one append keeps that invariant |
| HyperMemorySpec.RestoreIsFit | modules/runtime-learning-engine/hypermemory-runtime.ts:321-348 | restoring keeps the longest suffix that fits and counts every record left behind except those larger than the whole capacity |
| HyperMemorySpec.RestoreContents | modules/runtime-learning-engine/hypermemory-runtime.ts:304-360 | restored under any capacity the ring is the longest suffix of the history that fits both capacities, numbered as before, and the same ring under the same capacity |
| HyperMemorySpec.RestoreSound | modules/runtime-learning-engine/hypermemory-runtime.ts:304-360 | the restored ring is sound again, its eviction count included, exactly when no record of the snapshot is larger than the new capacity |
| HyperMemorySpec.RestoreLosesCount | modules/runtime-learning-engine/hypermemory-runtime.ts:304-360 | every single record that fits one capacity and not the new one: restoring drops it without counting it |
| HyperMemory.CheckpointRoundTrip | modules/runtime-learning-engine/hypermemory-runtime.ts:223-241 | a snapshot written is accepted, restores the longest suffix of the history that fits both capacities, and is the identity under the same capacity |
| HyperMemory.WrittenIsAccepted | modules/runtime-learning-engine/hypermemory-runtime.ts:284-302 | recovery accepts what a checkpoint writes exactly while the next sequence is a safe integer |
| HyperMemory.PlainValid | modules/runtime-learning-engine/hypermemory-runtime.ts:223-241 | the one assumption on the codec, that decoding undoes encoding, can be met |
| HyperMemory.AlteredIsRefused | modules/runtime-learning-engine/hypermemory-runtime.ts:362-381 | under the digest of an accepted snapshot no other content is accepted, for contents whose digests do not collide |
| HyperMemory.AlteredPayload | modules/runtime-learning-engine/hypermemory-runtime.ts:362-415 | with a new digest for the whole content a changed payload is accepted if and only if it has the length and the digest its record states |
| HyperMemory.Runtime.Append | modules/runtime-learning-engine/hypermemory-runtime.ts:157-199 | the append loop, with the errors for a disabled or stopped runtime, a bad kind and an oversized record, which change nothing |
| HyperMemory.Runtime.MakeRoom | modules/runtime-learning-engine/hypermemory-runtime.ts:177-185 | the eviction loop |
| HyperMemory.Runtime.Checkpoint | modules/runtime-learning-engine/hypermemory-runtime.ts:223-241 | a completed checkpoint stores the snapshot of the ring, an interrupted one leaves the old file |
| HyperMemory.Runtime.Validate | modules/runtime-learning-engine/hypermemory-runtime.ts:362-415 | validation accepts exactly the snapshots with the right digest, increasing sequences and matching payload lengths and digests |
| HyperMemory.Runtime.RestoreCheckpoint | modules/runtime-learning-engine/hypermemory-runtime.ts:304-360 | an accepted checkpoint is loaded, any other is put aside and the runtime starts empty, a missing one changes nothing |
| HyperMemory.Runtime.Start | modules/runtime-learning-engine/hypermemory-runtime.ts:130-155 | a disabled runtime does not start, a running one is left alone; a started one keeps its ring when there is no checkpoint, is empty and has put the file aside when it is refused, and holds the longest fitting suffix when it is accepted |
| FrozenRuns.FreezeHolds | android/app/native/learning_store.c:594-610 | after a freeze that succeeds, over every run without a change to another mode, a reset or a close, and with any system call failing in it: model and records, committed or buffered, are those of the moment of the freeze, every prediction is the one of that model, and every observation is refused and changes nothing |
| FrozenRuns.FreezeDecides | android/app/native/learning_store.c:594-610 | a freeze freezes exactly when every system call of its flush goes through, or the store was frozen before, and answers success exactly when the second header write and its synchronisation go through too |
| FrozenRuns.FreezeFreezes | android/app/native/learning_store.c:594-610 | a freeze that succeeds leaves every record on disk under a header with the raised epoch and the exact count, nothing behind them, and the model as it was |
| StoreAccounts.RunReports | android/app/native/learning_store.c:451-542 | over every run, with any system call failing in it: the records of an open store are those recovered and stored, in order; its header is the one it opened with, the epoch raised once for every change of mode, freeze and reset; the dropped counter counts the accepted observations not answered with success; and the counters of predictions, right and wrong ones count the verdicts, replayed ones included |
| StoreAccounts.ModesDecide | android/app/native/learning_store.c:405-423 | observations are refused in the modes 0 and 4, predictions in 0 and 1, a reset in 1, 2 and 3, only 2 and 3 learn, and a refusal changes nothing |
| LogContents.RecordTells | android/app/native/learning_store.c:493-509 | a record holds the observation with cost and memory change clamped to 32 bits and the auxiliary hash folded, and the prediction made for it with a confidence and an error that add up to 65535 |
| LogContents.RecordFlags | android/app/native/learning_store.c:464-491 | the flags of a record say whether there was a prediction, whether it was right, and whether the model learned; the mode is in bits 8 to 10, and no other bit is set |
| LogContents.MemoryClamped | android/app/native/learning_store.c:519-531 | the memory total follows the changes but stays between zero and the largest signed number, and the high-water mark is the largest total |
| LogContents.RecordLayout | android/app/native/learning_store.h:81-96 | where the thirteen fields of a record lie in its 64 bytes |
| LogContents.HeaderLayout | android/app/native/learning_store.h:67-79 | where the fields of the header lie; its first eight bytes spell RAFARFL1 |
| LogContents.FormatRefused | android/app/native/learning_store.c:377-387 | a header is refused for its format if and only if its first twenty bytes are not those of this format and version |
| StoreProofs.KeptExactly | android/app/native/learning_store.c:451-542 | exactly which accepted observations, of whatever content, keep the agreement of store and log: the slab has room, the memory change replays as it was counted, and the sequence numbers go on |
| LearningModel.ReplayExact | android/app/native/learning_store.c:272-292 | apart from the cost averages, replaying the record of any observation has its effect if and only if the memory change fits 32 bits without saturating the total, or both totals end at zero, or clamping and saturating lose the same |
| LearningModel.AppendExact | android/app/native/learning_store.c:272-292 | a log that agrees with the live model agrees again after an observation and its record exactly under that condition and while the sequence numbers go on |
| SetMapping.SetBits | android/app/native/learning_store.c:143-146 | bit i of the set is the exclusive or of the bits i, i + 17 and i + 33 of the context, for eight bits |
| SetMapping.SetLinear | android/app/native/learning_store.c:143-146 | the set of the exclusive or of two contexts is the exclusive or of their sets |
| SetMapping.Spread | android/app/native/learning_store.c:143-146 | contexts that differ in their low eight bits only have different sets |
| SetMapping.OnePerBlock | android/app/native/learning_store.c:143-146 | every block of 256 contexts has exactly one context in every set |
| SetMapping.BlockPrediction | android/app/native/learning_store.c:148-215 | after any run of a store that learned contexts of one block only, however many, a prediction for a context with at most four candidates is exact counting |
| Eviction.RarestMakesRoom | android/app/native/learning_store.c:198-214 | a new pair takes the first vacant way, or in a full set the way with the fewest observations, of several the one observed longest ago, of several the first |
| Eviction.KnownIsReinforced | android/app/native/learning_store.c:188-214 | a known pair counts one more up to the largest counter, remembers the sequence number, and moves its average cost an eighth of the way; a new one starts with the observation |
| Eviction.EntryRemembers | android/app/native/learning_store.c:179-215 | however pairs were evicted and came back, an entry remembers the sequence number of the newest observation of its pair |
| Eviction.LeastPredictedMakesRoom | android/app/native/learning_runtime.c:55-79 | in a full set of the validation table the context with the fewest predictions loses its entry, of several the one seen longest ago |
| ValidationRuns.OutcomeCounts | android/app/native/learning_runtime.c:217-227 | a right outcome raises the correct counter of the context by one and leaves the incorrect one, a wrong outcome the other way round, up to the largest counter |
| ValidationRuns.ContextScores | android/app/native/learning_runtime.c:190-231 | after a stay in the validating mode entered with a clear table, the entries of a set hold the scores of the frozen model on the samples of their contexts if and only if at most four contexts fell into the set; no entry ever claims more |
| ValidationRuns.MarksSound | android/app/native/learning_runtime.c:55-79 | however contexts lost their entries and came back: no context has two, and no counter exceeds the score of its context |
| ValidationRuns.CandidatesCounted | android/app/native/learning_runtime.c:81-100 | while at most four contexts fell into every set, the qualifying entries after such a stay are as many as the contexts that the frozen model predicted at least 4096 times and well enough |
| StableContext.StableLearning | android/app/native/learning_store_selftest.c:47-70 | for every number of observations of one context and candidate: all but the first are predicted, and all of those right |
| StableContext.StablePrediction | android/app/native/learning_store_selftest.c:78-88 | the prediction is then the candidate, with full confidence and every observation as support |
| StableContext.StableCandidate | android/app/native/learning_runtime_selftest.c:69-101 | for every number of validation samples of that context: all count as predicted and right, and the context is a candidate exactly from 4096 samples on |
| RuntimeGates.CallsRefused | android/app/native/learning_runtime.c:174-179 | which calls are refused before opening, afterwards, and in which mode; a refusal changes nothing |
| RuntimeGates.ModeReached | android/app/native/learning_runtime.c:130-157 | a change of mode that succeeds sets the mode asked for, and behind it the store mode of the same number or the frozen one |
| RuntimeGates.ObserveReaches | android/app/native/learning_runtime.c:181-186 | in the learning modes a call to observe is a call to the store; while validating it never reaches it |
| RuntimeGates.ErrorsDecide | android/app/native/learning_runtime.c:90-98 | while no counter is full a context qualifies exactly with at least 4096 predictions and fewer than 1001 wrong ones in a million: the bound on the successes follows |
| DumpTamper.SoundDetermined | tools/runtime_stability_storage.py:111-142 | in an accepted directory the dumps determine the digest files and the other way round, so no change to one kind of file alone is accepted |
| DumpTamper.AlteredDump | tools/runtime_stability_storage.py:111-142 | an accepted directory with another content under the name of a dump is not accepted |
| DumpTamper.AlteredDigest | tools/runtime_stability_storage.py:111-142 | nor is one with any other words in a digest file |
| DumpTamper.MismatchForever | tools/runtime_stability_storage.py:199-223 | once a digest file does not state the digest of its dump, no file is ever changed again to mend it, and no writer passes the check any more |
| DumpTamper.AlterationStopsWriters | tools/runtime_stability_storage.py:199-223 | from an accepted directory, let any writers run, fail and be killed, then alter a dump that has its digest file: the directory is never accepted again, and only writers that had passed the check before can still be done |
| DumpTamper.WithdrawnExact | tools/runtime_stability_storage.py:145-196 | removing a dump together with its digest file is noticed if and only if another dump names it as predecessor |
| DumpTamper.ForgedExact | tools/runtime_stability_storage.py:145-196 | rewriting a dump and its digest file, keeping the predecessor it names, is noticed if and only if another dump names it |
| Primes.FirstEighty | android/app/native/hash_bitexact_digest.h:60-70 | the table of primes behind the constants holds the first eighty primes in order and no other number |
| DigestConstants.Sha256Constants | android/app/native/hash_bitexact_digest.h:42 | round constant t is the first 32 bits of the fractional part of the cube root of the prime t (section 4.2.2 of FIPS 180-4) |
| DigestConstants.Sha256Start | android/app/native/hash_bitexact_digest.h:48 | the starting words are the first 32 bits of the fractional parts of the square roots of the first eight primes (section 5.3.3) |
| DigestConstants.Sha512Constants | android/app/native/hash_bitexact_digest.h:60-70 | the same with 64 bits for the eighty constants of SHA-512 (section 4.2.3) |
| DigestConstants.Sha512Start | android/app/native/hash_bitexact_digest.h:76 | and for its starting words (section 5.3.5) |
| DigestConstants.PartUnique | android/app/native/hash_bitexact_digest.h:60-70 | there is only one such number for each root |
| DigestBits.ChoiceBits | android/app/native/hash_bitexact_equations.h:9-10 | bit i of Ch is the bit of y where x has a one and that of z elsewhere; bit i of Maj is the majority |
| DigestBits.BigSigma0Bits | android/app/native/hash_bitexact_equations.h:11 | bit i is the exclusive or of the bits 2, 13 and 22 places on |
| DigestBits.BigSigma1Bits | android/app/native/hash_bitexact_equations.h:12 | bit i is the exclusive or of the bits 6, 11 and 25 places on |
| DigestBits.SmallSigma0Bits | android/app/native/hash_bitexact_equations.h:13 | bit i is the exclusive or of the bits 7 and 18 places on and, if there is one, the bit 3 places up |
| DigestBits.SmallSigma1Bits | android/app/native/hash_bitexact_equations.h:14 | bit i is the exclusive or of the bits 17 and 19 places on and, if there is one, the bit 10 places up |
| DigestBits.Md5Bits | android/app/native/hash_bitexact_equations.h:4-7 | the four auxiliary functions of MD5, bit by bit |
| DigestBits64.ChoiceBits | android/app/native/hash_bitexact_digest.h:53-54 | Ch and Maj on 64-bit words |
| DigestBits64.BigSigma0Bits | android/app/native/hash_bitexact_digest.h:55 | 28, 34 and 39 places on |
| DigestBits64.BigSigma1Bits | android/app/native/hash_bitexact_digest.h:56 | 14, 18 and 41 places on |
| DigestBits64.SmallSigma0Bits | android/app/native/hash_bitexact_digest.h:57 | 1 and 8 places on and 7 places up |
| DigestBits64.SmallSigma1Bits | android/app/native/hash_bitexact_digest.h:58 | 19 and 61 places on and 6 places up |
| Sha256Answer.Abc | .github/tests/rafaelia/hash_bitexact_streaming_vectors.c:7-9 | the SHA-256 digest of "abc" is the published one, derived round by round |
| Sha512Answer.Abc | .github/tests/rafaelia/hash_bitexact_streaming_vectors.c:8-9 | the SHA-512 digest of "abc" is the published one, derived round by round |
| Md5Answer.Abc | .github/tests/rafaelia/hash_bitexact_streaming_vectors.c:6-9 | the MD5 digest of "abc" is the one of section A.5 of RFC 1321, derived step by step |
| SelfTests.CheckValue | android/app/native/rafaelia_freestanding_l0_selftest.c:4-12 | the CRC32C of the nine digits is e3069283 |
| SelfTests.RatioAnswers | android/app/native/rafaelia_freestanding_l0_selftest.c:15-20 | the ratios that the self-test expects |
| SelfTests.ChainAnswers | tools/frida-runtime-stability-recorder.c:28-40 | an empty chain starts from the offset basis, and each byte is combined before the multiplication by the prime |
| SelfTests.PlanAnswers | tools/frida-debugger-class-a-autotune.c:350-434 | plan, failover, rollback and mitigation of the two signals of the self-test |
| RecorderSamples.BurstMeans | tools/frida-runtime-stability-recorder.c:91-105 | the burst sample is full for at most a millisecond since the last event, half for at most ten, and zero beyond, for the first event, and when time does not go forward |
| RecorderSamples.DirectionMeans | tools/frida-runtime-stability-recorder.c:81-89 | reads have direction 1, writes direction 2, all other kinds none |
| RecorderSamples.RunSamples | tools/frida-runtime-stability-recorder.c:245-249 | over every run the alternation sample of an event is full exactly when it goes the other way than the newest accepted event with a direction, and the burst sample is that of the time since the newest accepted event |
| RecorderSamples.FlagsWeigh | tools/frida-runtime-stability-recorder.c:107-120 | the four boundary flags weigh a quarter each and no other flag counts |
| RecorderSamples.PressureMeans | tools/frida-runtime-stability-recorder.c:250-253 | near a collection the pressure is at least three quarters; latency saturates at five milliseconds |
| RecorderSamples.EventIs | tools/frida-runtime-stability-recorder.c:253-273 | one event in numbers: averages, stability, baseline and distance as exact quotients of integers |
| RecorderSamples.FirstIsStable | tools/frida-runtime-stability-recorder.c:267-295 | the first event sets the baseline and is never reported |
| RecorderSamples.DefaultLimits | tools/frida-runtime-stability-recorder.c:275-282 | zero stands for a trigger of 11796, a release at half the trigger, two events, and 256 dumps |
| RecorderSamples.KindsAllowed | tools/frida-runtime-stability-recorder.c:137-145 | without a mask the kinds 1 to 31 are accepted, and masks select kinds by their bits |
| RecorderSamples.RecordTells | tools/frida-runtime-stability-recorder.c:147-186 | a record holds the event with the top flag set, the measures of that moment, decision 2, and the link over all of it |
| RecorderSamples.CalmStays | tools/frida-runtime-stability-recorder-selftest.c:47-70 | any number of calm reads is reported as stable and commits nothing |
| RecorderSamples.StormIsCommitted | tools/frida-runtime-stability-recorder-selftest.c:72-86 | after that, alternating writes and reads under pressure are reported at once and committed from the second one on |
| CrashRecords.StatusMeans | tools/frida-runtime-crash-observer.c:37-71 | which events are refused, and why |
| CrashRecords.RecordTells | tools/frida-runtime-crash-observer.c:73-99 | a record holds the event with the top flag set, schema version 1, and the link over all of it |
| CrashRecords.QueueLength | tools/frida-runtime-crash-observer.c:101-105 | after accepted events only, the queue holds all of them up to 128, and then the newest 128 |
| PlanFields.CoherenceIs | tools/frida-debugger-class-a-autotune.c:196-208 | the coherence as exact quotients of integers |
| PlanFields.CoherenceBetween | tools/frida-debugger-class-a-autotune.c:196-208 | the coherence lies between the mean of stability and accuracy and that of the two reserves, whichever is larger |
| PlanFields.PlanToken | tools/frida-debugger-class-a-autotune.c:210-241 | the token of a plan gives back the planned and the last route |
| PlanFields.PlanMitigates | tools/frida-debugger-class-a-autotune.c:175-194 | which measures call for mitigation, and that the faults of the signal are passed on |
| PlanFields.MitigationAdds | tools/frida-debugger-class-a-autotune.c:276-333 | mitigation adds the risks to what the plan asked for and moves the confidence a quarter of the way to one |
| PlanFields.MarkedTokens | tools/frida-debugger-class-a-autotune.c:259-333 | tokens of mitigation and rollback are marked: combined with those they started from they give the mark and the known-good route |
| PageLayout.SealedLayout | android/app/native/neon4096_core.h:53-78 | where the fields of a sealed page lie, and that its first eight bytes spell RAFAN4K1 |
| PageLayout.VerifiesExactly | android/app/native/neon4096_core.c:157-209 | the pages that verify are exactly those that sealing makes of the payload and fields they hold; only the flags are free |
| PageLayout.RefusedFirst | android/app/native/neon4096_core.c:188-195 | a page is refused for its contract exactly when its first twelve bytes, its size or its route are wrong, whatever its checksums |
| FrameSizes.LengthIsUtf8 | modules/runtime-learning-engine/hypermemory-runtime.ts:86-88 | the length counted for a kind is the length of its UTF-8 form, surrogate pairs and lone surrogates included |
| FrameSizes.EncodedInjective | modules/runtime-learning-engine/hypermemory-runtime.ts:86-88 | that form is an encoding: it determines the code points |
| FrameSizes.FrameCounts | modules/runtime-learning-engine/hypermemory-runtime.ts:86-88 | a frame is the kind in UTF-8, the payload and 64 bytes more |
| FrameSizes.RecordsBound | modules/runtime-learning-engine/hypermemory-runtime.ts:157-199 | a ring never holds more than one record for every 64 bytes of its capacity |
| FrameSizes.UniformFit | modules/runtime-learning-engine/hypermemory-runtime.ts:177-198 | of records of equal size exactly as many are kept as the capacity holds |
| AppendLimits.TrimExact | modules/runtime-learning-engine/hypermemory-runtime.ts:160 | trimming takes white space off both ends of a kind and nothing else |
| AppendLimits.AppendTaken | modules/runtime-learning-engine/hypermemory-runtime.ts:157-175 | an append is taken exactly when the runtime is enabled and running, the trimmed kind has 1 to 128 code units, and the frame fits the capacity |
| AppendLimits.AcceptedOrdered | modules/runtime-learning-engine/hypermemory-runtime.ts:362-415 | an accepted snapshot numbers its records upwards from one or more, within the safe integers |
| LinkedBytes.CrashBytes | tools/frida-runtime-crash-observer.c:91-96 | which bytes the link of a crash record covers: fifteen fields in 84 bytes, its link left out, and four zero bytes |
| LinkedBytes.RecorderBytes | tools/frida-runtime-stability-recorder.c:175-181 | which bytes the link of a stability record covers: the event in the first 50 of 64 bytes, its link left out |
| LinkedBytes.RecorderMeasures | tools/frida-runtime-stability-recorder.c:175-181 | and the seven measures in the others |
| LinkedBytes.NewChain | tools/frida-runtime-stability-recorder.c:175-181 | the records that a new recorder commits are linked from an empty chain on |
| RuntimeGates.ResetForgets | android/app/native/learning_runtime.c:286-298 | a reset of a runtime that is off or frozen succeeds and forgets the validation, every prediction and their counters; file, slab, sequence numbers and memory totals stay |
| Latency.RankCovers | android/app/native/learning_store.c:223-241 | the rank of a percentile is the least that covers the fraction, at least the first and at most the last |

## Left out

- HeaderTear.TornHeaderExact: is about record counts and epochs below 2^32; `HeaderTear.TornHeaderStatus` has no such bound, but only says that the old checksum has to fit.
- HeaderTear.TornHeaderRefused: has the same bounds.
- HeaderEpoch.TornHeaderNext: has the same bounds; larger rises of the epoch are the subject of `HeaderFlush.TornHeaderFlush`.
- HeaderRuns.SessionHeader: is about sessions whose truncations do not fail and whose earlier header writes are not stopped, with counts and epochs below 2^32; after a failed truncation, or when a file is reopened whose last slab write was stopped, the count can rise by more than a slab between two header writes, and only `HeaderTear.TornHeaderExact` applies.
- EmbeddedCrc.BurstExact: the place of the checksum is one of the two that the file format has.
- StoreProofs.ReplayEqualsLive: is about runs without `reset_volatile`, which clears the predictor but not the log, and about observations whose memory change replays as it was counted and whose sequence number does not run out; `StoreProofs.KeptExactly` shows that others really break the agreement.
- PredictorExact.PredictionIsExact: needs that at most four different pairs were observed in the set; `PredictorExact.ExactIff` shows that this is also necessary for exact counts.
- StoreProofs.CrashDuringFlush: starts from a file with nothing behind the committed records but the beginning of the slab, as `StoreProofs.StepKeepsClean` shows an open store to stay; `StoreTails.StoppedFlush` is the theorem for any bytes there.
- LearningStore.Store.Init: an interrupted system call that is retried is one call, and a read that fails on a file of sufficient length is not modelled.
- Learning store counters for observations, predictions and drops are unbounded here, where the code has 64 bits; the memory total of a replayed log saturates in the live path only, so replay is taken to stay below 2^63.
- Learning runtime: direct calls of the store beside the runtime, and the snapshot structures that only copy counters.
- Neon4096: detection of NEON through /proc/cpuinfo, benchmark timing and the sequence counter of the caller; the backend is a parameter and both folds are proved equal.
- Streaming.Context.Update: the message is one value; overlapping buffers and a context used after `final` are not modelled. One context serves all three digests and calls the compression as a function; `Sha256.CompressInPlace`, `Sha512.CompressBlock` and `Md5.CompressBlock` show the loops to compute it.
- The BLAKE3 mixing step in hash_bitexact_equations.h: none of the digests modelled here uses it.
- DumpDirectory.RunGrows: is about file contents without a collision of their digests, those that writers build included; a writer may name any predecessor at all, so reading it without the lock is not a step of its own; temporary files are names without content, and someone repairing a refused directory by hand is not modelled.
- DumpDirectory.AtMostOneWins: is about dumps that name a predecessor; a dump without that field is appended unchecked, as in the code.
- DumpStorage.Storage.WriteAppendOnly: the limits on count, size and free space are one parameter, checked with the other conditions before anything is written.
- DumpStorage.Storage.LatestDump: the order by modification time and name is a parameter that tells any two files apart, and so is the order in which the directory lists them.
- Fingerprints of a dump (strong_fingerprints), directory creation and permissions.
- StabilityRecorder.Recorder.Observe: null pointers are not modelled; the signal derived for the planner from the recorder state only copies fields.
- CrashSpec.ChainSurvives: the hashed bytes include four bytes of zero padding, as on targets that align 64-bit fields to eight bytes.
- HyperMemory.Runtime.Append: the constructor's checks of the path, the capacity and the interval are its precondition, and sequence numbers are unbounded where the code has 53 bits.
- HyperMemory.Runtime.RestoreCheckpoint: a snapshot with fields of the wrong type counts as one that does not parse; a failing rename during quarantine, the checkpoint timer and `stop` are not modelled.
- `readRecords` of the memory ring: a limit of zero returns all records (`slice(-0)`), so no limit is stated for it.
- JNI bindings, Android code, the Frida agents, dashboards, validators and report scripts: foreign calls and text processing, or thresholds with only easy properties.
- The disk-exhaustion handler: its sort order contradicts its comment about older items, so there is no eviction order to state.
- Spinlocks and the file lock: a call is one atomic step, except in `DumpDirectory`, where every file operation is one.
