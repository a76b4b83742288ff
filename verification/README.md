# Verified model of the quant platform

The platform serves decision-support scores, keeps a hash-chained audit log of
everything it does, guards predictions with a kill switch and releases with a
statistical canary gate, and shows it all in a terminal client. This project
models the parts of it whose correctness spans several functions or a whole run,
and proves what they promise:

- **Canary gate** (`mann_whitney.dfy`, `canary.dfy`): the Mann-Whitney test by
  mid-ranks is the count over all pairs; its tie-corrected variance is never
  negative and vanishes only on a pool of one value; the verdict depends on the
  two samples only as multisets and not on which came first.
- **Audit chain** (`audit_chain.dfy`): the head hash of a verified table commits
  to every row of it, and exactly when that fails without a hash collision.
- **Rust audit writer** (`audit_writer.dfy`, `postgres_s3_writer.dfy`): a step
  system in which the insert and the three archive puts of each flush may be
  refused, or succeed and lose their acknowledgement, with `status` reading in
  between; and the writer object, each call of which is a run of those steps.
- **Python audit store** (`audit_store.dfy`): the sequential store, as an object,
  with the same three outcomes of an insert.
- **Service** (`kill_switch.dfy`, `service.dfy`, `service_object.dfy`):
  predictions, kill switch and log as one state machine over mixed calls.
- **Decision support** (`calibration.dfy`, `walk_forward.dfy`, `horizons.dfy`):
  calibration inequalities, fold layout and its termination, nested bands.
- **Focus protocol** (`focus.dfy`, `focus_client.dfy`): keys, bounded queue,
  coalescing worker and event channel of the terminal client, freely interleaved.
- **Event alerts** (`alerts.dfy`) and **event board** (`news_intel.dfy`):
  at-most-once alerts, grouping, ranking, cursor pagination.

`sums.dfy` holds the laws of finite sums the statistics rest on, `common.dfy` small
notions several modules share, and `shortfalls.dfy` concrete runs on which an
expected property fails. To check the project, run `dafny verify dfyconfig.toml`.

Library functions (SHA-256, HMAC, JSON text, `sqrt`, `erfc`, `int`, headline
normalisation, scoring) are function-valued parameters; what a theorem needs of
one is a `requires` clause, such as `erfc(0) = 1` or 64-character digests without
a separator. Collision freedom is not assumed: the commitment theorem says that
two tables are equal or that two of their own rows collide. Clock readings, and
what the database, the object store and the network answer, are arguments of the
steps and methods. Arithmetic is over exact reals and unbounded integers.

## Where the code falls short of its description

The model follows the code. Where a promised property is false of it, the exact
condition under which it holds is proved for all inputs, and a lemma in
`shortfalls.dfy` gives a run on which it fails.

- The platform's top-level README (line 73) promises two-person approval to clear a
  hard kill. `soft_off` and `soft_on` leave HARD with a single operator:
  `Service.LeavesHardIff`, `Shortfalls.OneOperatorClearsHard`.
- A replayed prediction has `kill_switch_active` raised after it was signed. Its
  signature covers the payload sent exactly when the prediction it repeats was
  itself computed at SOFT: `Service.RepliesSignedIff`, `Shortfalls.UnsignedReplay`.
- The kill switch moves before the event is written. Level and log agree exactly
  when the last accepted change and the last written one ask for the same level:
  `Service.LevelIsReplayOfLogIff`, `Shortfalls.UnloggedChange`. Where they part, the log
  read by itself may show what its level forbade: `Service.LogAllowedIff`,
  `Shortfalls.BlockedUnderOff`.
- A prediction is remembered before its event is written. What a SOFT call replays
  was the last payload served exactly when the last computing call was acknowledged:
  `Service.ReplayIsLastServedIff`, `Shortfalls.UnservedReplay`.
- In the Rust writer and in the Python store an insert can be stored and reported
  as failed. A table that verified still does exactly when nothing is stored after
  such a loss:
  `AuditWriter.RowsVerifyIff`, `AuditStorage.TableVerifiesIff`,
  `Shortfalls.LostInsertBreaksChain`, `Shortfalls.LostCommitBreaksChain`. In the
  Rust writer that row is never buffered or archived at any later time
  (`AuditWriter.LostInsertEscapesArchive`, `AuditWriter.EverythingArchivedIff`); in
  the Python store it leaves the table one row longer than file and buffer
  (`AuditStorage.KeptIsTableIff`), and a prediction served right after it names
  another checkpoint than its own previous hash (`Service.ServedCheckpointIff`,
  `Shortfalls.StrayCheckpoint`).
- Event types and actors are not escaped in the canonical text, so a table with a
  separator in one of them can be relabelled undetected:
  `AuditChain.RelabellingUndetectedIff`, `Shortfalls.BarInTypeIsAmbiguous`.
- With a full request queue the last Focus key is dropped: loading still ends, but
  the answer is for an earlier request: `Focus.LastKeyAnsweredIff`,
  `Shortfalls.DroppedKey`.
- The fold loop ends only because its caller clamps the embargo
  (`WalkForward.RunsForeverIff`, `Shortfalls.NegativeEmbargoLoops`), and paging only
  because the limit is at least one (`NewsIntel.ZeroLimitNeverAdvancesIff`,
  `Shortfalls.ZeroLimitStalls`).

## Model

| member | source | states |
|---|---|---|
| MannWhitney.Rank | src/quant_platform/canary.py:39-50 | on sorted input every position gets the mid-rank of its value: those below plus the middle of the tie group |
| MannWhitney.RunRank | src/quant_platform/canary.py:42-49 | the average position of a maximal run of equal values is that mid-rank |
| MannWhitney.MidRankIsWins | src/quant_platform/canary.py:39-50 | a mid-rank is one half plus the wins of the value over the whole pool, ties counting one half |
| MannWhitney.RanksTotal | src/quant_platform/canary.py:39-50 | the mid-ranks of n values sum to n(n+1)/2 whatever the ties |
| MannWhitney.RankSumGivesU | src/quant_platform/canary.py:56-63 | for every arrangement of the pool, rank sum less n1(n1+1)/2 is the count over all pairs (a > b, ties one half) |
| MannWhitney.UStatisticsAreComplementary | src/quant_platform/canary.py:60-65 | the U of a over b and of b over a add up to n1·n2 |
| MannWhitney.PairScorePermutation | src/quant_platform/canary.py:60-63 | U depends on the samples only as multisets |
| MannWhitney.TieTermByGroups | src/quant_platform/canary.py:67-70 | summing t³−t over distinct values, in any order, is the element-wise tie term |
| MannWhitney.TieTermPermutation | src/quant_platform/canary.py:67-70 | the tie term depends on the pool only as a multiset |
| MannWhitney.TieTermBound | src/quant_platform/canary.py:67-74 | the tie term is at most n³−n, and equal to it exactly when all pooled values are equal |
| MannWhitney.VarianceSign | src/quant_platform/canary.py:71-76 | for nonempty samples the variance is never negative, and zero exactly on a pool of one repeated value |
| MannWhitney.VarianceEquation | src/quant_platform/canary.py:71-74 | the tie-corrected variance, cleared of its divisions |
| Canary.PooledStatistics | src/quant_platform/canary.py:56-70 | pooling, sorting, ranking and dictionary counting compute the pairwise U and the tie term |
| Canary.CountTies | src/quant_platform/canary.py:67-70 | the dictionary loop computes the tie term of the pool |
| Canary.SumRanksOfA | src/quant_platform/canary.py:62 | the conditional sum is the rank sum of the first sample |
| Canary.MannWhitneyUPvalue | src/quant_platform/canary.py:53-80 | the computed p-value is the one defined by pair counting, early returns included |
| Canary.PValueDegenerate | src/quant_platform/canary.py:54-55 | without samples, or on a pool of one repeated value, the p-value is one |
| Canary.PValueMeans | src/quant_platform/canary.py:65-80 | on every other pool it is erfc(z/√2), where z²·V is the square of U's distance from n1·n2/2 and V the tie-corrected variance |
| Canary.PValueOneIff | src/quant_platform/canary.py:78-80 | for a decreasing erfc it is one exactly when U is at its mean |
| Canary.PValueOrders | src/quant_platform/canary.py:78-80 | at equal sizes and ties, the pair whose U lies farther from its mean has the smaller p-value, and only that one |
| Canary.PValuePermutation | src/quant_platform/canary.py:53-80 | permuting either sample leaves the p-value alone |
| Canary.PValueSwap | src/quant_platform/canary.py:53-80 | exchanging the samples leaves the p-value alone |
| Canary.VerdictMonotone | src/quant_platform/canary.py:97-125 | worse measurements never earn a milder verdict; the exact thresholds of fail and pass with and without significant drift; each verdict with its own action and numbers |
| Canary.EvaluateMeasures | src/quant_platform/canary.py:88-95 | the two shifts are the distances of the means of the scores and of the shares of scores at or above the cutoff, counted by position |
| Canary.EvaluatePermutation | src/quant_platform/canary.py:87-125 | verdict, action and every reported number depend on the score lists only as multisets |
| Canary.EvaluateSwap | src/quant_platform/canary.py:87-125 | exchanging current and candidate changes nothing in the result |
| Canary.RearrangementPasses | src/quant_platform/canary.py:20-27 | a rearranged list has p-value 1 and both shifts 0, passes under exactly those thresholds that let these pass, and so under the defaults |
| AuditChain.VerifiesPrefix | src/quant_platform/audit.py:184-218 | verification is closed under taking prefixes |
| AuditChain.ChainedVerifiesIff | src/quant_platform/audit.py:184-218 | rows that continue a table link by link verify exactly when that table does |
| AuditChain.SealLinks | src/quant_platform/audit.py:81-101 | an appended event always links to the hash it was built on |
| AuditChain.CanonicalSplits | src/quant_platform/audit.py:83-85 | equal canonical texts have equal columns, when the columns before a separator hold none |
| AuditChain.HashCommits | src/quant_platform/audit.py:81-101 | rows with one hash are the same row, or their two texts collide |
| AuditChain.HeadCommits | src/quant_platform/audit.py:184-218 | two verified tables with the same head are equal row by row and in length, or two of their own rows collide |
| AuditChain.RelabellingUndetectedIff | src/quant_platform/audit.py:81-101 | a verified table can have its labels rewritten without detection or collision exactly when one of them holds a separator |
| AuditChain.VerifyChainRows | rust/vps1-serving/src/audit.rs:415-441 | the loop returns true exactly on tables that verify |
| AuditChain.VerifyChain | src/quant_platform/audit.py:184-218 | valid exactly on tables that verify, with their count and head; otherwise the first bad row and why |
| AuditWriter.StartInStep | rust/vps1-serving/src/audit.rs:310-333 | a new writer is in step exactly when the table it opens verifies |
| AuditWriter.RowsExtend | rust/vps1-serving/src/audit.rs:446-479 | over any run the table only grows at its end |
| AuditWriter.ChainVerifiesIff | rust/vps1-serving/src/audit.rs:446-479 | over any interleaving the rows verify exactly when nothing is stored after a lost insert acknowledgement; with none lost the head is in step |
| AuditWriter.RowsVerifyIff | rust/vps1-serving/src/audit.rs:310-333 | from process start, over whatever table it found: the rows verify exactly when those found do and nothing was stored after a loss |
| AuditWriter.StatusIsConsistent | rust/vps1-serving/src/audit.rs:481-494 | the answer of status is valid exactly when the table found verifies and by its first query nothing was stored after a loss, with the head of a table that extends the rows checked and verifies under the same condition at its time |
| AuditWriter.StepKeepsArchive | rust/vps1-serving/src/audit.rs:335-413 | every step, with any call refused or its acknowledgement lost, keeps the archive invariant |
| AuditWriter.ArchiveHolds | rust/vps1-serving/src/audit.rs:335-413 | over any interleaving, all faults and whatever table was found: what the process knows it stored continues that table link by link with its head cached, the buffer is its suffix since the last completed flush, earlier rows are in manifests, manifests follow each other, every checkpoint names an archived manifest |
| AuditWriter.LinkedAt | rust/vps1-serving/src/audit.rs:357-378 | each manifest is a stretch of the table, and starts at the end of the one before, or repeats its start as a strict extension |
| AuditWriter.FlushCovers | rust/vps1-serving/src/audit.rs:335-413 | a completed flush leaves every stored row in some manifest, the newest ending on the head |
| AuditWriter.BufferIsSince | rust/vps1-serving/src/audit.rs:391-410 | over any run the buffer holds exactly the events acknowledged since all three puts of a flush last succeeded, in order, and the flush time is that of that flush |
| AuditWriter.FlushBeginsIff | rust/vps1-serving/src/audit.rs:474-476 | a flush begins exactly on keeping an event at least the interval past the last completed one, and takes the whole buffer |
| AuditWriter.BufferIsRecent | rust/vps1-serving/src/audit.rs:474-476 | over any run, unless a put has failed since the last completed flush, every buffered event was created less than the interval after it |
| AuditWriter.DatedAreStored | rust/vps1-serving/src/audit.rs:402-407 | over any run the archive holds as many dated checkpoints as were stored, acknowledged or not |
| AuditWriter.LatestComesFirst | rust/vps1-serving/src/audit.rs:401-407 | over any run a dated checkpoint is put only after the latest one |
| AuditWriter.NothingLost | rust/vps1-serving/src/audit.rs:340-413 | every row the process knows it stored is in the buffer or in an archived manifest |
| AuditWriter.KeptAreRows | rust/vps1-serving/src/audit.rs:446-479 | rows the process knows of are rows of the table, and all of them as long as no acknowledgement is lost |
| AuditWriter.ManifestsSealed | rust/vps1-serving/src/audit.rs:367-379 | over any run, whatever fails, every archived manifest carries the aggregate of its own events |
| AuditWriter.JoinDetermines | rust/vps1-serving/src/audit.rs:367 | the joined hashes determine the list of hashes |
| AuditWriter.AggregateCommits | rust/vps1-serving/src/audit.rs:367-376 | manifests with one aggregate hash list the same rows, or their joined texts or two of their rows collide |
| AuditWriter.ArchivedIsSound | rust/vps1-serving/src/audit.rs:335-413 | every manifest a run has archived meets what that commitment needs |
| AuditWriter.LostInsertEscapesArchive | rust/vps1-serving/src/audit.rs:470-472 | over any run each insert that lost its acknowledgement left a row that is never buffered or archived, then or later |
| AuditWriter.EverythingArchivedIff | rust/vps1-serving/src/audit.rs:340-413 | over whatever table was found, all rows stored since start are buffered or archived exactly when no insert lost its acknowledgement |
| PostgresS3Writer.AuditRepository.InsertEvent | rust/vps1-serving/src/audit.rs:113-231 | a unique hash is stored or not, and success is reported only when it was |
| PostgresS3Writer.PostgresS3AuditWriter.constructor | rust/vps1-serving/src/audit.rs:310-333 | the object starts in the start state over the rows it finds |
| PostgresS3Writer.PostgresS3AuditWriter.FlushBufferLocked | rust/vps1-serving/src/audit.rs:335-413 | the flush is the run of its three puts, stopping at the first that fails; an empty buffer changes nothing |
| PostgresS3Writer.PostgresS3AuditWriter.WriteEvent | rust/vps1-serving/src/audit.rs:446-479 | one call is one lock-insert-flush run; a returned hash is the new head of a table with one more row; with everything acknowledged, manifest, checkpoints, empty buffer and flush time exactly when the interval has passed, else a buffered event and nothing archived |
| PostgresS3Writer.PostgresS3AuditWriter.VerifyRows | rust/vps1-serving/src/audit.rs:481-483 | the first half answers valid exactly when the rows of the table verify |
| PostgresS3Writer.PostgresS3AuditWriter.FinishStatus | rust/vps1-serving/src/audit.rs:484-494 | the second half completes the answer StatusIsConsistent speaks of with the head the table then has |
| AuditStorage.FlushConserves | src/quant_platform/audit.py:121-158 | a flush moves the whole buffer into one batch that starts where the file ended |
| AuditStorage.OpOnBuffer | src/quant_platform/audit.py:97-158 | a flush empties the buffer, a due append flushes it with its own event, any other acknowledged append adds to it |
| AuditStorage.BufferIsRecent | src/quant_platform/audit.py:97-100 | over any run the buffer holds exactly the events acknowledged since the last flush, each created less than the interval after it |
| AuditStorage.StoreRunKeeps | src/quant_platform/audit.py:81-182 | over any run, whatever fails and whatever table was opened: rows found, file and buffer laid end to end continue that table link by link and verify exactly when it does, the cached hash is their head, and the batches tile the file |
| AuditStorage.TableVerifiesIff | src/quant_platform/audit.py:81-118 | over any run the table verifies exactly when the one found does and nothing was stored after a lost acknowledgement |
| AuditStorage.HeadIsCachedIff | src/quant_platform/audit.py:96-98 | over any run the cached hash is the head of the table exactly when the last stored row was acknowledged |
| AuditStorage.KeptIsTableIff | src/quant_platform/audit.py:96-158 | each lost acknowledgement leaves the table one row longer than file and buffer; without one they spell it out |
| AuditStorage.RunKeepsUnique | src/quant_platform/audit.py:57-72 | the table never repeats a hash, nor names the genesis one |
| AuditStorage.ReopenContinues | src/quant_platform/audit.py:74-79 | whatever prefix of the table is left on disk, a store reopened on it continues it link by link; and verifies wherever the table found did and nothing was stored after a loss |
| AuditStorage.AuditStore.constructor | src/quant_platform/audit.py:43-79 | opening loads the last hash of the table |
| AuditStorage.AuditStore.Append | src/quant_platform/audit.py:81-118 | the event sealed on the cached hash is stored, buffered and cached; or stored and reported as failed; or refused; the buffer goes to the file exactly when the interval has passed |
| AuditStorage.AuditStore.FlushObjectStore | src/quant_platform/audit.py:121-158 | the buffer becomes one batch of the file |
| AuditStorage.AuditStore.CreateCheckpoint | src/quant_platform/audit.py:160-182 | the checkpoint names the newest row of the table and its time, the genesis hash and the present without rows |
| AuditStorage.AuditStore.Verify | src/quant_platform/audit.py:184-218 | valid exactly when the stored table verifies |
| KillSwitches.TwoPersonRule | src/quant_platform/kill_switch.py:43-46 | the set of stripped names has two members exactly when two listed approvers are nonblank and differ |
| KillSwitches.StripMeans | src/quant_platform/kill_switch.py:44 | a stripped name is what lies between the outer blanks |
| KillSwitches.StripOuter | src/quant_platform/kill_switch.py:44 | names that differ only in outer blanks are one person |
| KillSwitches.KillSwitch.ActivateSoft | src/quant_platform/kill_switch.py:27-33 | sets SOFT whatever the level was |
| KillSwitches.KillSwitch.ActivateHard | src/quant_platform/kill_switch.py:35-41 | sets HARD whatever the level was |
| KillSwitches.KillSwitch.DeactivateHard | src/quant_platform/kill_switch.py:43-52 | goes to OFF exactly with two different nonblank approvers, else changes nothing |
| KillSwitches.KillSwitch.ClearSoft | src/quant_platform/kill_switch.py:54-60 | sets OFF whatever the level was |
| Service.HandleAppends | src/quant_platform/service.py:73-220 | every call appends its one row exactly when the insert stores it, under the type and actor of its answer and linked to the cached hash, and gives that answer exactly when told so |
| Service.PayloadsMatchRows | src/quant_platform/service.py:74-147 | a served payload carries what call and configuration say and its row repeats it; a replay is the remembered payload but for the flag; rejections and blocks log their reasons |
| Service.PredictObeysSwitch | src/quant_platform/service.py:83-100 | no served reply under HARD, replays only under SOFT, blocks only under HARD, and the level stays |
| Service.CheckpointIsPrevHashIff | src/quant_platform/service.py:102-147 | the checkpoint in a served payload is the previous hash of its own row exactly when the cached hash is the head of the table |
| Service.ServedCheckpointIff | src/quant_platform/service.py:102-147 | over any run that is so exactly when the last stored row was acknowledged |
| Service.TableTranscribesCalls | src/quant_platform/service.py:73-220 | over any run, whatever fails, the table is the opened one followed by one row per call that stored one, in order, under its type and actor |
| Service.ServiceRunsStore | src/quant_platform/service.py:73-220 | a run of calls is a run of the store, operation by operation |
| Service.RunKeepsStore | src/quant_platform/service.py:73-220 | after any run of mixed calls over whatever table was found, what was stored knowingly continues it link by link; the log verifies exactly when the table found does and nothing was stored after a loss, and is that chain exactly when nothing was lost |
| Service.OpsAuditReports | src/quant_platform/service.py:149-152 | at any time, over whatever table was found: a valid chain and its head exactly when that table verifies and nothing was stored after a loss, else invalid; nothing buffered, and the file holds all the process knows it stored |
| Service.RefusedChangesNothing | src/quant_platform/service.py:188-204 | a refused request leaves switch and log as they were; an accepted hard_off has two people |
| Service.DeniedIff | src/quant_platform/service.py:188-204 | each refusal with its exact condition, in order; any other request moves to the level its action stands for, and comes from an admin with token, signature, known action, and two people for hard_off |
| Service.LeavesHardIff | src/quant_platform/service.py:188-204 | HARD is left by every accepted action but hard_on, and without two approvers exactly by soft_on or soft_off |
| Service.StrsRoundTrip | src/quant_platform/service.py:206-215 | the approvers read back from a logged change are those of the request |
| Service.ChangeInStepIff | src/quant_platform/service.py:188-220 | an accepted change keeps level and log in step exactly when its row is stored or the level does not move |
| Service.LevelIsReplayOfLogIff | src/quant_platform/service.py:178-220 | over any run the level is what the log replays to exactly when the last accepted and the last written change ask for the same level |
| Service.LevelIsAsked | src/quant_platform/service.py:195-202 | over any run the switch stands where the last accepted change put it |
| Service.LogIsWritten | src/quant_platform/service.py:206-215 | over any run the log says what the last written change asked for |
| Service.AnswersObeyLevel | src/quant_platform/service.py:83-100 | over any run nothing is served under HARD, replayed but under SOFT, or blocked but under HARD, the level being the last asked for |
| Service.StoredRowsObeyLevel | src/quant_platform/service.py:83-147 | over any run every stored row, acknowledged or not, is one the level last asked for allows |
| Service.LoggedHardOffsApproved | src/quant_platform/service.py:201-215 | over any run, whatever fails, every logged hard_off carries two different approvers |
| Service.LoggedChangesAllowed | src/quant_platform/service.py:188-215 | over any run, whatever fails, every logged change records a call that met those conditions, with its actor, action, reason, result and approvers |
| Service.LogAllowedIff | src/quant_platform/service.py:83-100 | read by itself the log shows nothing its own level forbade exactly when at every stored prediction on valid features the level asked for and the level written were both HARD or neither, and both SOFT where the switch was SOFT with a prediction to repeat |
| Service.AllowedAt | src/quant_platform/service.py:83-100 | at each position of such a log: nothing served under HARD, replays under SOFT only, blocks under HARD only |
| Service.MemoryIsLastComputed | src/quant_platform/service.py:102-136 | over any run, whatever fails, the remembered prediction is the last one computed |
| Service.MemoryIsLastServedIff | src/quant_platform/service.py:102-147 | over any run it is the last one served exactly when the last computing call was acknowledged, else not even the checkpoints agree |
| Service.ReplayIsLastServedIff | src/quant_platform/service.py:92-100 | a SOFT replay is the most recently served payload with the flag raised exactly when the last computing call was acknowledged |
| Service.ReplaySignedIff | src/quant_platform/service.py:92-100 | if the key tells the two payloads apart, the signature of a replay covers what is sent exactly when the flag was up already |
| Service.MemoryIsSigned | src/quant_platform/service.py:102-136 | over any run the remembered prediction is signed, and carries the flag exactly when it was computed at SOFT |
| Service.RepliesSignedIff | src/quant_platform/service.py:54-147 | over any run served payloads are signed as sent, and replayed ones exactly when the prediction repeated was computed at SOFT |
| ServiceObject.PlatformService.constructor | src/quant_platform/service.py:26-42 | the object boots with the switch OFF over the table it finds |
| Service.RejectedIff | src/quant_platform/service.py:44-52 | past the contract exactly with the configured features and no outdated configuration; stale and mismatch tell which of the two failed |
| ServiceObject.PlatformService.Predict | src/quant_platform/service.py:73-147 | state and reply are those of the prediction transition |
| ServiceObject.PlatformService.SetKillSwitch | src/quant_platform/service.py:178-220 | state and reply are those of the kill switch transition |
| ServiceObject.PlatformService.OpsAudit | src/quant_platform/service.py:149-152 | state and reply are those of the audit transition |
| Calibration.BinsPartition | src/quant_platform/ml_decision_support.py:163-168 | every probability is in exactly one of the ten bins |
| Calibration.MembersSum | src/quant_platform/ml_decision_support.py:168-173 | probability total less label total of a bin's members is the window's sum of that bin's errors |
| Calibration.GapsBetween | src/quant_platform/ml_decision_support.py:163-173 | the accumulated bin gaps lie between the absolute total error and the total absolute error |
| Calibration.CalibrationBounds | src/quant_platform/ml_decision_support.py:146-186 | on every window, drift ≤ ece ≤ 1 and ece² ≤ brier ≤ 1 |
| Calibration.HitRateCounts | src/quant_platform/ml_decision_support.py:176 | the hit rate times the count is the number of samples whose likelier side came about; in [0,1], and one exactly when all are |
| Calibration.BrierExpands | src/quant_platform/ml_decision_support.py:175 | the Brier score times the count is Σp² less twice the probabilities on ups plus the ups |
| Calibration.DriftIsDistance | src/quant_platform/ml_decision_support.py:177 | the drift times the count is the distance of the total probability from the number of ups |
| Calibration.EceIsBestSigns | src/quant_platform/ml_decision_support.py:163-173 | ece times the count is the largest total of errors that any choice of one sign per bin gives |
| Calibration.RoundedBounds | src/quant_platform/ml_decision_support.py:179-186 | drift ≤ ece ≤ 1 and brier in [0,1] also after any monotone rounding that fixes 0 and 1 |
| Calibration.StatusTells | src/quant_platform/ml_decision_support.py:146-186 | zeros without samples; else every statistic rounded on its own |
| Calibration.WindowIsSuffix | src/quant_platform/ml_decision_support.py:138-144 | over any run of updates the window is the last max_samples clamped observations, in order |
| Calibration.WindowWellFormed | src/quant_platform/ml_decision_support.py:138-144 | the window has min(count, max) samples, and each tells of the outcome as far from the end: the probability brought into [0,1], one exactly for a positive return |
| Calibration.CalibrationMonitor.Update | src/quant_platform/ml_decision_support.py:141-144 | the new sample is pushed, the oldest dropped beyond the bound, and the status is of the new window |
| Calibration.CalibrationMonitor.WeightedBinGap | src/quant_platform/ml_decision_support.py:165-173 | one loop pass adds the absolute bin error over the window size, nothing for an empty bin |
| Calibration.CalibrationMonitor.Status | src/quant_platform/ml_decision_support.py:146-186 | the loop computes the statistics by definition |
| WalkForward.Evaluate | src/quant_platform/ml_decision_support.py:190-250 | fold k is the closed form starting at fold_size+(k−1)(fold_size+embargo), and their number is the ceiling; errors exactly on unequal lengths or small folds; shut out are exactly the inputs on which the loop never ends |
| WalkForward.WalkForwardValidate | src/quant_platform/ml_decision_support.py:424-438 | with the clamps every input ends, in a report or in the value error |
| WalkForward.FoldLayout | src/quant_platform/ml_decision_support.py:205-233 | windows are nonempty, embargo apart, full but for the last; training ends purge before, floored at 0; the last ends within an embargo of the end |
| WalkForward.FoldScores | src/quant_platform/ml_decision_support.py:213-220 | before rounding, the hit rate of a fold counts the positions of its test window where the likelier side came about, and its Brier score averages the squared misses |
| WalkForward.AggregatesAreMeans | src/quant_platform/ml_decision_support.py:235-240 | the aggregates are the means of the folds' own scores, zero without folds |
| WalkForward.TestsAreDisjoint | src/quant_platform/ml_decision_support.py:205-233 | any two test windows are disjoint and at least an embargo apart |
| WalkForward.CeilUnique | src/quant_platform/ml_decision_support.py:205-233 | the number of folds between the two bounds is the ceiling |
| WalkForward.RunsForeverIff | src/quant_platform/ml_decision_support.py:205-233 | unclamped, the loop never ends exactly when fold_size < n and the embargo is negative |
| Horizons.TripletIsDistribution | src/quant_platform/ml_decision_support.py:318-337 | for every score and regime the three probabilities are positive and sum to 1 |
| Horizons.TripletMirrors | src/quant_platform/ml_decision_support.py:318-337 | up and down change places when the score is mirrored and the trend turned, a thin market apart |
| Horizons.TripletLeans | src/quant_platform/ml_decision_support.py:318-337 | without a trend up is likelier exactly above one half; flat is likeliest at one half, and between the two at a score of one |
| Horizons.TripletFollowsRegime | src/quant_platform/ml_decision_support.py:322-332 | the odds of up rise in an upward trend, fall in a downward one or a thin market, and stay in a volatile one |
| Horizons.LeansExactly | src/quant_platform/ml_decision_support.py:339-378 | each band in closed form in score, scale, volatility and calibration error; the short return test implies its downside test; return and downside exactly |
| Horizons.ConfidenceMonotone | src/quant_platform/ml_decision_support.py:371-378 | confidence falls with volatility and calibration error and rises with the distance of the score from one half, between 0.05 and 0.98 |
| Horizons.BandsNested | src/quant_platform/ml_decision_support.py:366-390 | hold-fire is all-or-none, a lean at a longer horizon forces it at every shorter one, the two leans exclude each other |
| Horizons.RoundedVolatility | src/quant_platform/ml_decision_support.py:106-134 | the reported volatility is never negative |
| Horizons.ClassifyIff | src/quant_platform/ml_decision_support.py:106-134 | each regime in terms of range, move, close and volume, a missing feature counting as one half |
| Horizons.BandsNestedAlways | src/quant_platform/ml_decision_support.py:355-390 | the nesting of the bands for every feature map and every calibration window |
| Horizons.ReturnsWithin | src/quant_platform/ml_decision_support.py:361-369 | expected returns lie within 2.25 percent scaled to the horizon, in proportion to the mean feature brought into [0,1] |
| Focus.KeyLoads | rust/terminal-client/src/app.rs:487-539 | a key sets loading exactly when it asks for the symbol and timeframe then shown, and never clears it |
| Focus.KeyAsksIff | rust/terminal-client/src/app.rs:487-539 | exactly when each key asks, for which symbol, and what else it leaves alone |
| Focus.NextGoesRound | rust/terminal-client/src/app.rs:618-632 | pressing ] goes up the list and round |
| Focus.PrevUndoesNext | rust/terminal-client/src/app.rs:598-632 | [ and ] undo each other |
| Focus.TimeframeCycle | rust/terminal-client/src/app.rs:526-530 | day, five days, month, and back to a day |
| Focus.SnapshotKeepsSelection | rust/terminal-client/src/app.rs:740-751 | a new list keeps the selection where it fits, else moves it to the end |
| Focus.StepKeeps | rust/terminal-client/src/main.rs:352-394 | every step of interface, worker, channel and other producers keeps the protocol invariant |
| Focus.FocusNeverHangs | rust/terminal-client/src/app.rs:598-632 | in every reachable state loading implies a queued request, a busy worker or an undelivered Focus event |
| Focus.QuietProgress | rust/terminal-client/src/main.rs:352-394 | without keys every worker step shrinks the work left and every delivery the distance to the last answer; nothing else grows them |
| Focus.NextLabel | rust/terminal-client/src/main.rs:352-394 | until all is quiet some worker or delivery step is enabled |
| Focus.QuietRunsEnd | rust/terminal-client/src/main.rs:352-394 | once keys stop, along every schedule and with any outcome of each connect and fetch, worker and delivery take boundedly many steps, and when they can take none all is quiet and nothing loads |
| Focus.LoadingClears | rust/terminal-client/src/main.rs:352-394 | from every reachable state there is such a schedule that ends quiet, for any one outcome of connects and fetches |
| Focus.FetchesNewest | rust/terminal-client/src/main.rs:359-378 | what the worker goes on to fetch after draining is the newest request ever accepted |
| Focus.AnswersInOrder | rust/terminal-client/src/main.rs:352-394 | answers are to an in-order subsequence of the accepted requests, none answered twice |
| Focus.Superseded | rust/terminal-client/src/main.rs:359-366 | a request taken off the queue is answered, or a later one is or is being worked on |
| Focus.AnsweredOrSuperseded | rust/terminal-client/src/main.rs:352-394 | the same over any run, and at quiescence the last answer is for the last accepted request |
| Focus.QuietAnswersLast | rust/terminal-client/src/main.rs:352-394 | at quiescence the last accepted request was answered last and nothing is loading |
| Focus.ShowsLastAccepted | rust/terminal-client/src/main.rs:380-384 | if the server echoes what it was asked and the last answer succeeded, at quiescence the screen shows the last accepted request |
| Focus.ClientIsKept | rust/terminal-client/src/main.rs:357-392 | over any run the worker has a client between answers exactly when its last answer was a success |
| Focus.LastKeyAnsweredIff | rust/terminal-client/src/app.rs:487-539 | the last key is what is answered last exactly when the queue had room or the dropped request repeats the last accepted |
| FocusClient.FocusChannel.TrySend | rust/terminal-client/src/main.rs:46 | the bounded channel takes a request when it has room and drops it otherwise |
| FocusClient.App.PressKey | rust/terminal-client/src/app.rs:487-539 | fields and queue after a key are those of the protocol's interface step |
| FocusClient.App.ApplyFocusBundle | rust/terminal-client/src/app.rs:919-931 | the answer is shown and loading ends |
| FocusClient.App.ApplyFocusFailed | rust/terminal-client/src/main.rs:191-194 | loading ends |
| FocusClient.App.ApplySnapshot | rust/terminal-client/src/app.rs:740-751 | the selection stays within the new signal list |
| FocusClient.FocusFetcher.ServeNext | rust/terminal-client/src/main.rs:359-393 | one undisturbed turn asks for the newest queued request, empties the queue and emits exactly one event; a failure drops the client |
| FocusClient.DrainTakesNewest | rust/terminal-client/src/main.rs:363-366 | the drain steps of the protocol end on the newest request as the loop does |
| Alerts.FreshIsComplete | rust/vps1-serving/src/gateway.rs:911-949 | ids seen after a board are those before and those of all its qualifying events |
| Alerts.FreshIsSound | rust/vps1-serving/src/gateway.rs:911-949 | nothing is sent twice, again, unqualified or off the board |
| Alerts.FreshConcat | rust/vps1-serving/src/gateway.rs:895-967 | two boards in turn send what the two laid end to end would |
| Alerts.BoardsAsOne | rust/vps1-serving/src/gateway.rs:895-967 | any run of boards is one pass over all of them, and seen is the set of ids sent |
| Alerts.EachAlertOnce | rust/vps1-serving/src/gateway.rs:895-967 | after every run each qualifying id of all boards was sent exactly once, and nothing else |
| Alerts.SentIff | rust/vps1-serving/src/gateway.rs:895-967 | over any run an id is sent exactly when some board holds an event with it at or above the severity floor, at or above the confidence floor, and contradicted by 0.35 where that is asked for |
| Alerts.AlertStream.ProcessBoard | rust/vps1-serving/src/gateway.rs:911-949 | the loop sends the fresh events of the board, or as many as the receiver takes before it goes away |
| NewsIntel.GroupEvents | src/quant_platform/news_intel.py:201-208 | keys in first-seen order, each with its items in fetch order |
| NewsIntel.KeysCover | src/quant_platform/news_intel.py:201-208 | the group keys are distinct and cover every item |
| NewsIntel.SameEventIff | src/quant_platform/news_intel.py:201-208 | two articles are of one event exactly for one symbol, none being the market, and headlines that normalise alike |
| NewsIntel.GroupsPartition | src/quant_platform/news_intel.py:201-208 | the groups together are exactly the fetched items, as multisets |
| NewsIntel.ArticleCountsAddUp | src/quant_platform/news_intel.py:230-262 | article counts of all events sum to the number of items |
| NewsIntel.SummaryTells | src/quant_platform/news_intel.py:213-262 | a summary counts its articles, speaks with the first of the newest, and is contradicted by 0.8 where positive meets negative, else by 0.35 unless unanimous |
| NewsIntel.EventIdIsOfKey | src/quant_platform/news_intel.py:210-235 | the id recomputed from the newest article is that of the group's key |
| NewsIntel.IdsAreDistinctIff | src/quant_platform/news_intel.py:210-235 | before any filter two events share an id exactly when the id function confuses two different group keys |
| NewsIntel.SortRanks | src/quant_platform/news_intel.py:374-383 | the sort is a ranked permutation |
| NewsIntel.RankIsOrder | src/quant_platform/news_intel.py:374-383 | the sort key: severity word, then contradiction, novelty, confidence, each higher first |
| NewsIntel.BoardIsRankedFilter | src/quant_platform/news_intel.py:386-400 | the board is in that order, and holds each event as often as grouping made it if not older than the cutoff and of the severity and sentiment asked for, else never |
| NewsIntel.BoardIdsDistinct | src/quant_platform/news_intel.py:368-400 | on any board ids are distinct unless the id function confuses two keys |
| NewsIntel.AllEvents | src/quant_platform/news_intel.py:368-384 | grouping, cutting at the window and sorting give the unfiltered board |
| NewsIntel.FollowFrom | src/quant_platform/news_intel.py:402-416 | following cursors from any offset collects the rest of the board |
| NewsIntel.PageTells | src/quant_platform/news_intel.py:402-416 | a page holds the board from its offset, up to the limit, and says so; a cursor that is no positive number starts over |
| NewsIntel.PagesAreTheBoard | src/quant_platform/news_intel.py:386-416 | from the empty cursor, with any limit of at least one, paging ends and the pages are the board without repeat or gap |
| NewsIntel.ZeroLimitNeverAdvancesIff | src/quant_platform/news_intel.py:402-410 | with limit zero a cursor leads back to its own offset exactly while it is inside the board |
| NewsIntel.DecimalRoundTrip | src/quant_platform/news_intel.py:402-410 | decimal cursors read back as the number written |
| Shortfalls.BarInTypeIsAmbiguous | src/quant_platform/audit.py:84 | a table of one row with a separator in its type verifies as well under other labels |
| Shortfalls.LostInsertBreaksChain | rust/vps1-serving/src/audit.rs:470-472 | on an empty table, one insert stored but reported as failed and one more event break the chain |
| Shortfalls.LostCommitBreaksChain | src/quant_platform/audit.py:103-119 | on an empty table, one commit that raises after its statement and one more append break the chain |
| Shortfalls.OneOperatorClearsHard | src/quant_platform/service.py:195-202 | hard_on, then soft_off without any approver: the switch is OFF |
| Shortfalls.UnloggedChange | src/quant_platform/service.py:199-215 | hard_on with its insert refused: HARD, under a log that says off |
| Shortfalls.BlockedUnderOff | src/quant_platform/service.py:84-90 | hard_on with its insert refused, then an acknowledged prediction: a block logged under a log that says off |
| Shortfalls.UnsignedReplay | src/quant_platform/service.py:92-100 | prediction, soft_on, prediction: the replay is not signed as sent |
| Shortfalls.UnservedReplay | src/quant_platform/service.py:135-147 | the same with the first insert refused: what is replayed was never served |
| Shortfalls.StrayCheckpoint | src/quant_platform/service.py:62-64 | after a commit that raised, a served checkpoint is not the hash its row continues from |
| Shortfalls.DroppedKey | rust/terminal-client/src/app.rs:617-632 | eight times f, then ]: the screen names the second symbol, and every quiet continuation answers the first last |
| Shortfalls.DroppedKeySettles | rust/terminal-client/src/main.rs:352-394 | there is such a continuation |
| Shortfalls.NegativeEmbargoLoops | src/quant_platform/ml_decision_support.py:205-233 | six predictions, folds of five, an embargo of minus one: the loop guard never fails |
| Shortfalls.ZeroLimitStalls | src/quant_platform/news_intel.py:402-410 | one event, limit zero: an empty page whose cursor leads back to the start |

## Left out

- Transport and storage: HTTP, gRPC, TLS, SQL and S3 calls are steps or arguments that succeed or fail.
- SHA-256, HMAC, JSON encoding, `sqrt`, `erfc`, `exp`, `int` and headline normalisation are parameters; `HeadCommits` gives payloads up to their canonical text.
- The round trip of payloads through the database: a payload read back is taken to have the canonical text that was hashed, as JSONB columns and `json.loads` followed by `json.dumps` have to preserve it.
- Manifest and checkpoint signatures, and object-store key names: two puts under one key, which needs equal millisecond and hash prefix, would overwrite; the archive is the list of puts of one process.
- Floating-point error: exact reals, with the final rounding any monotone function.
- The branch at src/quant_platform/canary.py:72-73: both samples are nonempty there, so n is at least 2 and it cannot be taken.
- Concurrent callers of the Python store, which has no lock, and failures of its file writes: only its insert and commit may raise.
- Crashes that lose the in-memory buffer, and a `write_event` future dropped between two awaits: archive properties are per process session, over calls that run to their end.
- The archived rows of an earlier session: `EverythingArchivedIff` speaks of rows stored since start.
- Failing queries of `status`: both are answered.
- Timestamps are given strings and integers, and the switch's `updated_at` is not kept; nothing is assumed of their order.
- The score function and the engine's output are parameters of the service; endpoints other than predict, set_kill_switch and ops_audit append one event under a type of their own.
- Champion/challenger, portfolio advisory, sizing bands, claims, impacts and timelines: they would add only easy members.
- Views, overlays, other keys and selection outside Focus: one step sets the fields Focus reads to anything.
- Focus.QuietRunsEnd: bounds the steps and shows where they end; that enabled steps are eventually taken is the runtime's fairness.
- FocusClient.FocusFetcher.ServeNext: runs with nobody else running; interleaving is in the step system of Focus.
- The gRPC side of alerts: impact fetch, field mapping, tick events and the error that ends the stream.
- Parsing of dates and windows: `published` and the cutoff are integers, so text order and time order of articles coincide.
- The dependence of the fetch size on the limit: pages are taken over one fixed item set at one fixed time.
- The no-op audit writer and the service's market data and RSS fetching.
