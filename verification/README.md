# GridProof: from evidence to proof

GridProof turns sensor readings and reporter messages about a power grid into candidate outages, decides on them, folds the
approved ones into an hourly uptime score for each zone, and commits that score to a chain. This project models that path in
Dafny and proves what it keeps, over every input, every run and every interleaving.

`dafny verify dfyconfig.toml` checks the whole project.

## How it is laid out

- **Silences.** `Heartbeat` holds the detection loops and the function they compute; `Silence` characterises what is reported
  on the bare set of beats; `SilenceOverTime` follows silences as evidence arrives and through the sweep's lookback;
  `GapArithmetic` does the confidence arithmetic.
- **Evidence.** `Agreement` and `WitnessIdentity` model cross-source agreement; `EvidenceStore` the in-memory maps and one
  sweep over them; `StoreRuns` all interleavings of ingests and sweeps; `DetectionLatency` the timed ones among them, with a
  slow one in `LatencyLimits`; `CandidateIds` the identifiers they give out.
- **Decisions and scores.** `Scores` is the value-only part; `Pipeline` the four in-memory maps; `PipelineRuns` interleaves
  operations at their await points; `PipelineLimits` says exactly which calls leave a score stale.
- **Database and chain.** `Commitments` holds the two chain sweeps, and `SweepLaws` states them on the rows; `Ledger` the
  tables shared by API, worker and reviewers; `LedgerScores` which approvals have a score; `LedgerRuns` the invariants of all
  runs over them; `Attestation` what a stored hash attests; `Receipts` what the receipts decide; `LedgerLimits` runs that
  show where the guarantees end.
- **Rate limiting.** `RateLimit` is the fixed-window limiter with its Redis latch, `CallerLimits` its bounds by caller,
  `RedisWire` the command framing.
- `Ordering`, `Collections`, `Domain` and `Arithmetic` are shared vocabulary.

Loops and in-place updates of the program are classes and methods, each proved to compute a specification function; the
results about runs are lemmas over those functions.

## Conventions

Instants are whole milliseconds, equal instants having equal timestamps. Confidences are whole ten-thousandths, the precision
the program rounds to; what the program adds before rounding is a real number. Identifiers are numbers with a total order;
new ones are parameters that are required to be fresh. The evidence hash is kept as the object that is hashed, and the score
id as the zone and epoch it is derived from. One stretch of code between two awaits is one atomic step in memory mode; in
database mode one operation is one step.

## Where the code differs from what one might expect

- A reported silence keeps its key in all later sweeps only from the moment `now - start > gap`. A reading stamped ahead of
  the clock can close a silence early, and that key can vanish again (`SilenceOverTime.KeyPersistence`).
- Previewing an approval, and rejecting something already approved, leave the score cache stale, and nothing else does
  (`PipelineLimits.ProperIsExact`, `PipelineLimits.RunKeepsScoresExactly`, `PipelineLimits.ReviewKeepsScoresExactly`).
- The database join counts approving decisions, not candidates (`Ledger.MemoryAgreesWithDatabase`).
- If a sweep throws after the chain took a call and before the hash is stored, the contract refuses every later call for
  that epoch: it is committed once, but its row never holds a hash and is never confirmed
  (`LedgerRuns.LostHashIsForEver`, `LedgerLimits.LostHashIsRefused`).
- An approval after submission changes the stored score and re-queues the row under its old hash; the old receipt then
  confirms it, so a confirmed row can attest another score than the stored one (`Attestation.AttestsWhileUnchanged`,
  `LedgerLimits.LateApprovalConfirmsOldScore`).
- The comment at apps/api/src/modules/pipeline/scheduler.ts:23-28 promises a lag of under a minute past the threshold. The
  lag stays within a minute if and only if a sweep begins in that minute (`DetectionLatency.RecordedWithinLagIff`); the
  interval allows almost a whole gap-length (`LatencyLimits.LagIsNearlyOneInterval`), and no more
  (`DetectionLatency.DetectionWithinInterval`).
- A worker's job that runs again (apps/api/src/modules/jobs/queue.ts:39 allows two attempts) can take its own approval back
  without rescoring; so can a rejection in review (`LedgerScores.StepKeepsScoresExactly`,
  `LedgerScores.RetriedJobGoesStale`).
- A transaction that fails is final: its row can be re-queued, but is never submitted again nor confirmed
  (`Receipts.FailedTransactionIsFinal`, `LedgerLimits.FailedTransactionIsRequeued`).
- A limiter request that waits for Redis while another one falls back is still counted by Redis
  (`RateLimit.WaitingRequestKeepsItsReply`); the bound of 2 * max holds all the same.

## Model

| member | source | states |
|---|---|---|
| Silence.GapCharacterisation | apps/api/src/modules/detection/heartbeat.ts:44-116 | Detection reports exactly the beat-free stretches longer than the threshold that start at a sensor beat of the zone and end at the next beat (or now): each once, in time order, without overlap, with confidence, bounds and named beats fixed by the set of beats |
| Silence.OnlyBeatsMatter | apps/api/src/modules/detection/heartbeat.ts:110-116 | Reordering the evidence, or adding reporter or other-zone events, changes nothing that is reported |
| Heartbeat.DetectHeartbeatGapCandidates | apps/api/src/modules/detection/heartbeat.ts:44-96 | The index loop and its final open stretch produce exactly the silences of the specification, in order, under fresh ids; nothing for a non-positive threshold or a zone never heard from |
| Heartbeat.BuildGapCandidate | apps/api/src/modules/detection/heartbeat.ts:118-146 | The candidate names the opening beat, the closing beat if there is another, and is scored by the distinct devices that fell silent |
| Heartbeat.NodesReportingBefore | apps/api/src/modules/detection/heartbeat.ts:153-164 | The backward loop with its early exit finds every device heard within the threshold before the silence |
| Heartbeat.SortedByInstant | apps/api/src/modules/detection/heartbeat.ts:110-116 | The timeline holds exactly the zone's sensor readings, strictly increasing in (instant, id) |
| Silence.ReportedIsDescribed | apps/api/src/modules/detection/heartbeat.ts:59-93 | A gap is reported if and only if it describes an over-threshold silence of the beat set |
| Silence.CandidateSaysSilence | apps/api/src/modules/detection/heartbeat.ts:118-146 | A candidate of a silence is an outage of its zone over the silence, with the next identifier, scored by its length and witnesses, naming the latest beat that opens it and, once it has closed, the earliest that closes it |
| SilenceOverTime.DetectedIffSilentAfter | apps/api/src/modules/detection/heartbeat.ts:98-108 | A silence key is reported exactly when a beat at its start is followed by no beat within the threshold and the threshold has passed, or a later beat proves it did |
| SilenceOverTime.KeyPersists | apps/api/src/modules/detection/heartbeat.ts:101-108 | A key past the threshold is reported again from any extension with later beats, open or closed, at any later time |
| SilenceOverTime.KeyPersistence | apps/api/src/modules/detection/heartbeat.ts:98-108 | The exact condition: a reported key survives every later sweep over every later evidence if and only if now is already past start plus threshold |
| SilenceOverTime.KeyVanishes | apps/api/src/modules/detection/heartbeat.ts:98-108 | The failing side exists: a silence closed by a reading stamped 4.5 minutes ahead is reported at minute 2, and a beat arriving then removes it |
| SilenceOverTime.WindowedDetection | apps/api/src/modules/ingestion/store.ts:182-193 | Detection over the lookback reports exactly the full-history silences that start inside it, same bounds and beats, never more confidence, the same confidence one threshold further in |
| GapArithmetic.GapConfidenceInUnits | apps/api/src/modules/detection/heartbeat.ts:166-178 | The rounded confidence is 6000 + length bonus (at most 2000) + 600 per further device, under the ceilings 8000 (one device) and 9500 |
| GapArithmetic.GapConfidenceBounds | apps/api/src/modules/detection/heartbeat.ts:166-174 | Confidence is monotone in length and devices, lies in 0.60 to 0.95, and is at most 0.80 for one device |
| GapArithmetic.WitnessesNeededForApproval | apps/api/src/modules/detection/heartbeat.ts:166-174 | A silence up to twice the threshold is approved only with four devices or more, always with six, never with one, and is never rejected |
| EvidenceStore.EvidenceMaps.UpsertTelemetryEvidence | apps/api/src/modules/ingestion/store.ts:36-79 | A sensor reading is stored once per idempotency key together with its candidate; a replay changes nothing and returns what is stored |
| EvidenceStore.EvidenceMaps.UpsertReporterEvidence | apps/api/src/modules/ingestion/store.ts:81-119 | The same for reporter submissions |
| EvidenceStore.EvidenceMaps.UpsertEvidence | apps/api/src/modules/ingestion/store.ts:54-78 | The branch both ingestion paths share in memory mode: lookup, store, candidate |
| EvidenceStore.EvidenceMaps.StoreMemoryCandidate | apps/api/src/modules/ingestion/store.ts:419-428 | The candidate of a reading is scored against the zone's stored evidence and kept under the reading's key |
| EvidenceStore.RequestsBecomeEvidence | apps/api/src/modules/ingestion/store.ts:57-115 | A telemetry request becomes a beat of its zone at its instant with its reading, witnessed by its device or else its wallet; a report becomes a reading that is no beat of any zone |
| StoreRuns.FirstIngestIsFound | apps/api/src/modules/ingestion/store.ts:76-78 | The lookup that a replay makes finds exactly the candidate that ingestion answered with, or none if it answered with none |
| StoreRuns.FoundStays | apps/api/src/modules/ingestion/store.ts:430-436 | A stored event's candidate is found unchanged in every later store |
| EvidenceStore.EvidenceMaps.ListMemoryEvidence | apps/api/src/modules/ingestion/store.ts:226-228 | Exactly the stored events of the zone are listed, in insertion order |
| EvidenceStore.EvidenceMaps.RecordGapCandidate | apps/api/src/modules/ingestion/store.ts:135-142 | A silence is kept and handed back only the first time its key is seen |
| EvidenceStore.EvidenceMaps.ListSweepEvidenceByZone | apps/api/src/modules/ingestion/store.ts:182-194 | The zones are those with a sensor event inside the lookback, and each has exactly those events |
| EvidenceStore.GroupEvidenceByZone | apps/api/src/modules/ingestion/store.ts:212-220 | The grouping loop computes the grouping function |
| EvidenceStore.GroupsAreZones | apps/api/src/modules/ingestion/store.ts:212-220 | A zone has a group exactly when it occurs, and the group is its events in their original order |
| EvidenceStore.EvidenceMaps.RunHeartbeatSweep | apps/api/src/modules/pipeline/scheduler.ts:147-182 | One sweep records the silences of every zone in zone order, counts them, and hands exactly the new ones to the pipeline, no two under one identifier |
| EvidenceStore.SightingTakesItsId | apps/api/src/modules/detection/heartbeat.ts:136-137 | The k-th candidate of a sweep, counted over all its zones, takes the k-th identifier drawn |
| EvidenceStore.SweepIdsDiffer | apps/api/src/modules/pipeline/scheduler.ts:155-172 | No two candidates of a sweep share an identifier |
| EvidenceStore.EvidenceMaps.SweepZone | apps/api/src/modules/pipeline/scheduler.ts:155-172 | The inner body of the sweep for one zone |
| EvidenceStore.EvidenceMaps.RecordEach | apps/api/src/modules/pipeline/scheduler.ts:159-163 | Recording a list keeps the first candidate per key and hands back exactly those |
| StoreRuns.ExactlyOncePerSilence | apps/api/src/modules/pipeline/scheduler.ts:155-172 | Over every interleaving of ingests and sweeps (recording one candidate at a time) no silence key is handed to the pipeline twice, the handed keys are the recorded ones, and each was a real over-threshold silence in the evidence its sweep saw |
| StoreRuns.CandidatesAreGrounded | apps/api/src/modules/detection/rules.ts:47-56 | In every reachable state each stored candidate names a non-empty list of stored events, all of its own zone |
| CandidateIds.StoredIdsDiffer | apps/api/src/modules/ingestion/store.ts:135-142 | In every reachable state, candidates stored under different keys have different identifiers, provided identifiers are drawn once |
| CandidateIds.PipedIdsDiffer | apps/api/src/modules/pipeline/scheduler.ts:159-168 | No two candidates that sweeps hand to the pipeline share an identifier, which its maps rely on |
| StoreRuns.HoldsFirstPerKey | apps/api/src/modules/ingestion/store.ts:54-79 | After any run the store holds, per idempotency key, exactly the first event ingested under it |
| StoreRuns.ReplayReturnsOriginal | apps/api/src/modules/ingestion/store.ts:54-55 | A replay after anything else changes neither map and answers with the original event and candidate |
| StoreRuns.RunKeepsInv | apps/api/src/modules/ingestion/store.ts:135-142 | The invariant of the interleaved runs behind the runs above |
| StoreRuns.SweepRunsThrough | apps/api/src/modules/pipeline/scheduler.ts:147-172 | A sweep of the interleaved runs that is not interrupted does exactly what one pass of the sweep does, and hands the same candidates to the pipeline |
| DetectionLatency.LookbackSuffices | apps/api/src/modules/pipeline/scheduler.ts:20 | A sweep past the threshold of a silence that began at most three gap-lengths ago sights it |
| DetectionLatency.SweepLooksBack | apps/api/src/modules/pipeline/scheduler.ts:20 | No sweep sights a silence that began more than eighteen minutes ago |
| DetectionLatency.LateSweepComesInTime | apps/api/src/modules/pipeline/scheduler.ts:29 | With sweeps at most some interval apart, the first sweep past the threshold begins within that interval of the threshold |
| DetectionLatency.DetectionWithinInterval | apps/api/src/modules/pipeline/scheduler.ts:147-172 | For any interval up to two gap-lengths, with sweeps that record one silence at a time while arrivals and other sweeps go on: the first sweep past the threshold begins within the interval of it, the silence is not recorded before, and is recorded once that sweep has finished |
| DetectionLatency.DetectionWithinTwoGaps | apps/api/src/modules/pipeline/scheduler.ts:29 | At the scheduler's interval the silence is recorded within two gap-lengths of its beat, and if no other sweep begins meanwhile with a length of one to two gap-lengths, so that automatic approval needs four distinct devices; refused replays do not matter |
| DetectionLatency.RecordedBySomeLateSweep | apps/api/src/modules/pipeline/scheduler.ts:155-172 | Every recorded silence was sighted by a sweep past its threshold, is over the threshold, lies in the past of that sweep, and is approved automatically only with two devices, four within two gap-lengths |
| DetectionLatency.RecordedIffSweptLate | apps/api/src/modules/pipeline/scheduler.ts:147-172 | When no sweep is under way, a silence is recorded if and only if some sweep has begun past its threshold |
| DetectionLatency.RecordedWithinLagIff | apps/api/src/modules/pipeline/scheduler.ts:25 | The lag, exactly: a silence is recorded within a given time of its threshold, a minute for instance, if and only if a sweep begins in that time |
| LatencyLimits.LagIsNearlyOneInterval | apps/api/src/modules/pipeline/scheduler.ts:23-29 | A run of sweeps on the scheduler's interval in which the silence is recorded only 359999 ms past its threshold |
| Agreement.ScoreCrossSourceAgreement | apps/api/src/modules/detection/rules.ts:68-116 | Scan, sort and sum together compute the declared score |
| Agreement.ScanWitnesses | apps/api/src/modules/detection/rules.ts:75-98 | The scan keeps, per agreeing witness, its earliest agreeing event, and the set of contradicting witnesses |
| Agreement.SumBonus | apps/api/src/modules/detection/rules.ts:104-107 | The running bonus is 0.04 per witness and another 0.04 per witness of the other source |
| Agreement.AgreementIsDeclared | apps/api/src/modules/detection/rules.ts:24-35 | Counts are of distinct non-subject witnesses in the window, each agreeing witness is represented by its earliest event, supporting ids are strictly ordered by (time, id), the bonus is the capped sum |
| Agreement.AgreementIgnoresOrder | apps/api/src/modules/detection/rules.ts:59-67 | The score does not depend on the order of the recent evidence |
| Agreement.DetectCandidateFromEvidence | apps/api/src/modules/detection/rules.ts:37-57 | A definite reading yields a candidate scored by its agreement, an unknown one none |
| Agreement.UncertaintyNeverAutoCommits | apps/api/src/modules/detection/rules.ts:8-12 | A contested reading has confidence at most 0.80 and is never approved automatically; one without a confidence hint, as the API ingests them, is never rejected automatically; none exceeds 0.97 |
| Agreement.CandidateNamesItsZone | apps/api/src/modules/detection/rules.ts:47-56 | A candidate names its reading and agreeing events of the same zone only |
| Agreement.WhoIsHeard | apps/api/src/modules/detection/rules.ts:79-93 | A reading is heard exactly when it is another one of the zone, at most ten minutes away, says up or down, and comes from another witness |
| Agreement.HearingIsMutual | apps/api/src/modules/detection/rules.ts:79-93 | Definite readings agree with, and contradict, one another |
| Agreement.CandidateSaysReading | apps/api/src/modules/detection/rules.ts:41-56 | The candidate is an outage exactly when the reading says the grid is down, covers the five minutes up to it, and names it and then one event for each agreeing witness, in order |
| Agreement.CandidateConfidence | apps/api/src/modules/detection/rules.ts:118-140 | Its confidence, exactly: what the reading is worth by source, voltage and hint, plus the bonus, held at 9700 or, exactly when contradicted, at 8000 |
| WitnessIdentity.FirstNameDecides | apps/api/src/modules/detection/identity.ts:11-24 | The first field that is more than blanks decides the kind of identity; the provider id counts only when none is |
| WitnessIdentity.SameDeviceIffSameName | apps/api/src/modules/detection/identity.ts:14-15 | Two readings with device ids share a witness exactly when the ids agree up to case and surrounding blanks |
| WitnessIdentity.PaddingIsIgnored | apps/api/src/modules/detection/identity.ts:26-28 | Blanks around a field never matter |
| WitnessIdentity.SameLetterIff | apps/api/src/modules/detection/identity.ts:15-21 | Two characters count as one letter when they are the same, or the capital and the small form of one |
| WitnessIdentity.BlankCharacters | apps/api/src/modules/detection/identity.ts:26-28 | The blanks that are trimmed |
| Scores.FloorBrackets | apps/api/src/modules/pipeline/service.ts:790-793 | An epoch start is a whole hour and its epoch contains the instant it was floored from |
| Scores.OneEpochEach | apps/api/src/modules/pipeline/service.ts:733-746 | A candidate counts for exactly one whole-hour epoch: the one its window end floors to |
| Scores.BpsIsNearest | apps/api/src/modules/pipeline/service.ts:752-755 | Basis points are the nearest whole number to 10000 * up / total, halves up, within 0..10000 |
| Scores.BpsComplement | apps/api/src/modules/pipeline/service.ts:753-755 | Complementary vote counts sum to 10000 or 10001 |
| Scores.HashNamesEveryVote | apps/api/src/modules/pipeline/service.ts:756-765 | The hashed object names its zone and epoch and, in order, every listed candidate with its status, confidence and evidence |
| Scores.SameHashIffSameAttested | apps/api/src/modules/pipeline/service.ts:756-765 | Two lists give the same hashed object if and only if they agree, place by place, on those four fields |
| Scores.ScoreIsRestoredShare | apps/agent-worker/src/result-sink.ts:329-336 | The basis points are the share of the restored among the listed candidates to the nearest whole number, and 0 without any |
| Pipeline.PipelineMaps.ProcessCandidatePipeline | apps/api/src/modules/pipeline/service.ts:70-99 | A candidate's run stores its decision and, for an approval that is no preview, the recomputed score and a pending commitment |
| Pipeline.PipelineMaps.ResolveReviewDecision | apps/api/src/modules/pipeline/service.ts:182-216 | A review replaces the decision and records what it replaced; an approval returns the score recomputed from the maps it left and its pending commitment; an unknown decision changes nothing |
| Pipeline.PipelineMaps.StoreDecision | apps/api/src/modules/pipeline/service.ts:70-71 | Decision and candidate are stored before anything awaits |
| Pipeline.DecisionIsFound | apps/api/src/modules/pipeline/service.ts:477-497 | A decision is found under the id it was given: the gate's verdict at 0.85 and 0.50 on the candidate's confidence, without a review |
| Pipeline.ReviewIsRecorded | apps/api/src/modules/pipeline/service.ts:186-195 | A review keeps id, candidate and confidence, sets the verdict, and records the verdict it found, the one it gave and the note; no other decision changes |
| Pipeline.FindsFirstDecision | apps/api/src/modules/pipeline/service.ts:183-184 | The first decision with the id is found, and none only where there is none |
| Pipeline.FindsFirstCandidate | apps/api/src/modules/pipeline/service.ts:198-201 | So for the candidate of a review |
| Pipeline.PipelineMaps.RecomputeMemoryEpochScore | apps/api/src/modules/pipeline/service.ts:733-750 | In coherent maps the score tallies exactly the set of approved in-epoch candidates, listed in strict (window end, id) order; nothing is changed |
| Pipeline.PipelineMaps.StoreScore | apps/api/src/modules/pipeline/service.ts:80-83 | Score and commitment are stored under the candidate's zone and epoch |
| Pipeline.ApprovedIsSorted | apps/api/src/modules/pipeline/service.ts:736-747 | The hashed list is the set of approved in-epoch candidates, strictly increasing in (window end, id) |
| Pipeline.SameApprovedSameScore | apps/api/src/modules/pipeline/service.ts:747-775 | Equal approved sets give equal basis points and an equal object under the evidence hash, whatever the order of approval |
| PipelineRuns.QuiescentConsistency | apps/api/src/modules/pipeline/service.ts:70-88 | For every interleaving at the awaits in which no approval is previewed and nothing approved is rejected: a stale score is owed by an operation in flight; at rest every score equals recomputation, exists exactly where something is approved, and has a pending commitment beside it; approvals are over 0.85 or reviewed |
| PipelineRuns.SameApprovalsSameProof | apps/api/src/modules/pipeline/service.ts:183-212 | Two runs at rest with the same approved candidates of an epoch hold the same score for it |
| PipelineRuns.StepKeepsInv | apps/api/src/modules/pipeline/service.ts:70-88 | Every atomic stretch between awaits keeps the invariant, scores owed included |
| PipelineRuns.NewCandidateCanRun | apps/api/src/modules/pipeline/service.ts:70-71 | A candidate under a new id can be recorded and submitted in every state |
| PipelineRuns.SubmitRunsThrough | apps/api/src/modules/pipeline/service.ts:70-88 | A submission that is not interrupted does exactly what processing the candidate does |
| PipelineRuns.ReviewRunsThrough | apps/api/src/modules/pipeline/service.ts:183-215 | A review that is not interrupted does exactly what resolving the decision does |
| PipelineLimits.RunKeepsScoresExactly | apps/api/src/modules/pipeline/service.ts:75-83 | A candidate's run keeps every score equal to recomputation if and only if it is not the preview of an approval |
| PipelineLimits.ReviewKeepsScoresExactly | apps/api/src/modules/pipeline/service.ts:183-215 | A review does if and only if it does not reject something approved, and an approval that changes anything finds its candidate |
| PipelineLimits.ProperIsExact | apps/api/src/modules/pipeline/service.ts:75-83 | That condition is exact: at rest, the next stretch keeps the invariant if and only if it neither previews an approval nor rejects something approved |
| PipelineLimits.PreviewGoesStale | apps/api/src/modules/pipeline/service.ts:76-79 | A concrete preview that leaves an approved candidate without score |
| PipelineLimits.RejectingTheApprovedGoesStale | apps/api/src/modules/pipeline/service.ts:183-215 | A concrete rejection that leaves a score for nothing |
| PipelineLimits.ContestedReadingScoresNothing | apps/api/src/modules/pipeline/service.ts:75-99 | The pipeline run of a contested reading leaves all scores and commitments as they were |
| PipelineLimits.LoneSilenceScoresNothing | apps/api/src/modules/pipeline/service.ts:75-99 | So does the run of a silence that one device witnessed |
| Commitments.CommitmentTable.SubmitPendingCommitmentsWithClient | apps/api/src/modules/blockchain/service.ts:191-257 | The submission loop leaves the rows, the call log and the counters that the specification gives, whether it ends or throws |
| Commitments.CommitmentTable.IndexPendingConfirmationsWithClient | apps/api/src/modules/blockchain/service.ts:107-188 | The confirmation loop updates each row by its own receipt and keeps scanned = confirmed + failed + stillPending; a lookup that throws ends it, with the rows before it updated and no other |
| Commitments.CallsFollowBatch | apps/api/src/modules/blockchain/service.ts:216-235 | Calls follow the selected order; all but the last are accepted; a sweep that throws ends on its first failing call |
| Commitments.RowAfterSweep | apps/api/src/modules/blockchain/service.ts:216-249 | A row changes by the answer to its own call alone: a failing submission marks that row and leaves every later row untouched |
| Commitments.FailureEndsSweep | apps/api/src/modules/blockchain/service.ts:231-249 | Nothing after the first failure has an effect |
| Commitments.ReceiptDecides | apps/api/src/modules/blockchain/service.ts:269-287 | Status 1 confirms a row, another status fails it, no receipt or no status leaves it; the hash stays |
| SweepLaws.SubmitSweepLaw | apps/api/src/modules/blockchain/service.ts:191-257 | A submission sweep makes at most limit calls, each for a row that is pending without a hash and of an hour that is over, with the stored score, and each row changes by its own call alone |
| SweepLaws.OldestAreSubmitted | apps/api/src/modules/blockchain/service.ts:194-210 | A waiting row is passed over only if the sweep throws, or makes all its limit calls on rows that are no younger |
| SweepLaws.IndexSweepLaw | apps/api/src/modules/blockchain/service.ts:107-126 | A confirmation sweep touches at most limit rows, all pending with a hash and with an answered lookup, and nothing else |
| Ledger.JoinAnswersQuery | apps/api/src/modules/pipeline/service.ts:339-346 | The ordered join has one row per approving decision of each in-epoch candidate, by (window end, id) |
| Ledger.QueryHasOneAnswer | apps/agent-worker/src/result-sink.ts:183-195 | The query has one possible answer, so API and worker hash the same list from the same rows |
| Ledger.WorkerAgreesWithApi | apps/agent-worker/src/result-sink.ts:203-212 | The worker's score equals the API's if and only if the join is not empty, that is unless the fallback is taken |
| Ledger.OwnEpochIsNeverEmpty | apps/agent-worker/src/result-sink.ts:181-212 | For a stored candidate with an approving decision the fallback is unreachable: its window end lies in its own epoch |
| Ledger.MemoryAgreesWithDatabase | apps/api/src/modules/pipeline/service.ts:323-360 | Memory and database scores agree if and only if no candidate of the epoch is approved by both agents |
| LedgerScores.StepWritesOneRow | apps/api/src/modules/pipeline/service.ts:286-300 | A deciding step writes exactly one decision row, of its candidate and agent: the gate's, the model's or its escalation, or the reviewed one with its record |
| LedgerScores.ApprovalIsQueued | apps/agent-worker/src/result-sink.ts:77-84 | After an approving step that is no preview, by API, worker or reviewer, the zone and epoch has the score of the rows that answer the query, its commitment row is pending under its old hash, and no other row changes |
| LedgerScores.NothingElseIsQueued | apps/agent-worker/src/result-sink.ts:71-78 | Any other verdict and any preview leaves scores and commitments alone |
| LedgerScores.StepKeepsScoresExactly | apps/api/src/modules/pipeline/service.ts:323-386 | A step keeps every database score equal to recomputation if and only if it writes the scores or leaves the approval of its candidate as it was |
| LedgerScores.ApprovedIffScored | apps/api/src/modules/pipeline/service.ts:40-56 | In every run of such steps a candidate is approved if and only if it votes in the stored score of its zone and epoch, and a commitment row stands beside every score |
| LedgerScores.RetriedJobGoesStale | apps/agent-worker/src/result-sink.ts:41-73 | A reachable run: the job of an approved reading runs again, its model now rejects, and the score keeps the vote |
| LedgerRuns.GateIsWarranted | apps/api/src/modules/pipeline/service.ts:594-600 | A decision of the policy gate approves only from 0.85 on |
| LedgerRuns.WorkerIsWarranted | apps/agent-worker/src/orchestrator.ts:50-57 | The worker's row approves exactly when the model does so with at least 0.85; a weaker approval or an exception becomes an escalation at the candidate's own confidence |
| LedgerRuns.ApprovalProvenance | apps/agent-worker/src/result-sink.ts:41-68 | In every reachable state of API, worker, reviewer and sweep steps an approving row has confidence at least 0.85 or the record of a review that approved it |
| LedgerRuns.RunsAreSound | apps/api/src/modules/pipeline/service.ts:286-386 | Every step keeps the whole invariant: warranted decisions, scores built from stored in-epoch candidates, complete rows, admissible calls, a chain log that agrees with the rows |
| LedgerRuns.SoundScoreIsFair | apps/agent-worker/src/result-sink.ts:329-336 | A stored score has at least one vote and nearest basis points |
| LedgerRuns.EveryCallIsAdmissible | apps/api/src/modules/blockchain/service.ts:197-211 | Every commitEpoch call of every run meets the conditions on the call itself: a whole-hour epoch that is over, at least one vote, nearest basis points |
| LedgerRuns.DuplicateIffLost | README.md:284 | The remaining condition, exactly: an earlier call for the same zone and epoch was taken if and only if the hash of an earlier one was lost, and then the call is refused |
| LedgerRuns.CommitCallAdmissible | apps/api/src/modules/blockchain/service.ts:260-267 | Conversion to seconds loses nothing: the epoch sent is the score's, aligned to 3600 |
| LedgerRuns.ConfirmedIsComplete | apps/api/src/modules/blockchain/service.ts:139-155 | A confirmed row has a hash, a block and a confirmation time |
| LedgerRuns.HashIsForEver | apps/api/src/modules/pipeline/service.ts:412-415 | Once stored, a hash survives every re-queue, review and sweep, and commitEpoch is never called for that epoch again |
| LedgerRuns.AtMostOneTaken | smart-contracts/src/UptimeAttestation.sol:87-90 | In every run the chain takes the transaction of at most one call for a zone and epoch; it has taken one exactly when the row holds a hash or a hash was lost, never both |
| Receipts.CommittedAtMostOnce | smart-contracts/src/UptimeAttestation.sol:87-90 | In every run an epoch is committed at most once, and it is if and only if the transaction its row names succeeded or a hash was lost |
| Receipts.ConfirmedOnlyBySuccess | apps/api/src/modules/blockchain/service.ts:139-155 | In every run, with one receipt per transaction, a row is confirmed only if the receipt of its own hash has status 1, and it holds that receipt's block |
| Receipts.FailedTransactionIsFinal | apps/api/src/modules/pipeline/service.ts:412-415 | Once a row names a transaction that did not succeed, it is never confirmed and commitEpoch is never called for its epoch again, whatever re-queues it |
| Receipts.StepKeepsBacked | apps/api/src/modules/blockchain/service.ts:139-155 | Every step keeps confirmed rows backed by the receipt of their own transaction |
| LedgerRuns.LostHashIsForEver | apps/api/src/modules/blockchain/service.ts:218-249 | After a lost hash the row never holds one and is never confirmed, in every continuation, and every further call for the epoch is refused |
| LedgerRuns.StepKeepsHash | apps/agent-worker/src/result-sink.ts:251-258 | Each step keeps a stored hash and adds no call for its epoch |
| LedgerRuns.SubmitKeepsSound | apps/api/src/modules/blockchain/service.ts:191-257 | A submission sweep keeps the whole invariant |
| LedgerRuns.IndexKeepsSound | apps/api/src/modules/blockchain/service.ts:107-188 | A confirmation sweep keeps the whole invariant |
| LedgerLimits.LostHashIsRefused | apps/api/src/modules/blockchain/service.ts:231-249 | A reachable run: the chain takes a call, its hash is not stored, a review re-queues the row, and the second call is refused |
| LedgerLimits.LostEpochIsNeverConfirmed | apps/api/src/modules/blockchain/service.ts:231-249 | Whatever follows that run, the row of the epoch the chain holds has no hash and is not confirmed |
| Attestation.AttestsWhileUnchanged | apps/api/src/modules/pipeline/service.ts:412-415 | From the sweep that stores a hash on, the call behind it carries the stored score exactly while that score is the one the sweep found |
| Attestation.RequeueAttestsIffSameVotes | apps/api/src/modules/pipeline/service.ts:361-415 | A re-queue keeps the hash, and the hash goes on attesting the score if and only if the join's votes at that moment are the votes that were sent |
| Attestation.SweepSendsStoredScore | apps/api/src/modules/blockchain/service.ts:191-229 | The sweep that stores a hash sent the score that is stored |
| LedgerLimits.FailedTransactionIsRequeued | apps/api/src/modules/pipeline/service.ts:412-415 | A reachable run: the transaction fails, a review queues the row again under the failed hash, and no sweep will submit it |
| LedgerLimits.LateApprovalConfirmsOldScore | apps/api/src/modules/pipeline/service.ts:412-415 | A reachable run: a reading is approved after submission and the old receipt confirms the row, with 0 basis points on chain and 5000 stored |
| LedgerLimits.ReviewAndWorkerCountTwice | apps/api/src/modules/pipeline/service.ts:339-344 | A reachable run: worker and reviewer both approve one candidate, which then votes twice (6667 instead of 5000 basis points) |
| RateLimit.RateLimiter.IncrementMemoryCounter | apps/api/src/middleware/rate-limit.ts:70-83 | Starts a counter or increments it, as the specification says |
| RateLimit.RateLimiter.LooksAtLatch | apps/api/src/middleware/rate-limit.ts:55-57 | The stretch before the await: Redis is asked unless it is off or the key fell back |
| RateLimit.RateLimiter.CountRequest | apps/api/src/middleware/rate-limit.ts:58-68 | The stretch after it: the reply counts, a failure latches the key, and everything else is counted in memory |
| RateLimit.RateLimiter.IncrementRateLimit | apps/api/src/middleware/rate-limit.ts:55-68 | Both stretches without interleaving |
| RateLimit.RateLimiter.RateLimit | apps/api/src/middleware/rate-limit.ts:19-48 | Passes a request exactly when its count is within the maximum, with the headers of that count |
| RateLimit.CountersAreExact | apps/api/src/middleware/rate-limit.ts:70-83 | The memory counter of a key is the number of its requests counted in memory, until its window ends; it never restarts |
| RateLimit.PassesSplit | apps/api/src/middleware/rate-limit.ts:55-68 | Passes of a window = those Redis let through + the first max of those counted in memory, in the order of counting and however requests interleave |
| RateLimit.MemoryIsExact | apps/api/src/middleware/rate-limit.ts:70-83 | In memory mode each identity gets exactly min(max, arrivals) passes per window |
| CallerLimits.SameCounterIffSameCaller | apps/api/src/middleware/rate-limit.ts:22-24 | Two requests share a counter exactly when they come from one caller in one window |
| CallerLimits.CallerGetsExactly | apps/api/src/middleware/rate-limit.ts:26-43 | In memory mode, of a caller's requests in a window exactly the smaller of max and their number get through, counted on the requests |
| CallerLimits.CallerGetsAtMostTwice | apps/api/src/middleware/rate-limit.ts:55-68 | With a Redis that may fail at any moment at most 2 * max of them do |
| RateLimit.RedisIsExact | apps/api/src/middleware/rate-limit.ts:57-60 | So does it with a Redis that never fails and numbers the requests of a key, in whatever order the replies arrive |
| RateLimit.RedisPassesBounded | apps/api/src/middleware/rate-limit.ts:102-107 | Distinct Redis replies let at most max requests through, in whatever order they arrive and however many are lost |
| RateLimit.AtMostTwice | apps/api/src/middleware/rate-limit.ts:55-68 | With Redis failing at any point, and requests waiting for it side by side, at most 2 * max requests pass per window |
| RateLimit.TwiceIsReached | apps/api/src/middleware/rate-limit.ts:55-68 | The factor two is attained for every max |
| RateLimit.LatchIsOneWay | apps/api/src/middleware/rate-limit.ts:57-64 | No request that looks at the latch after a request of its key was counted in memory is counted by Redis |
| RateLimit.WaitingRequestKeepsItsReply | apps/api/src/middleware/rate-limit.ts:57-64 | What the latch does not reach: a request already waiting when another falls back still passes by its reply |
| RateLimit.MemoryIntervalBound | apps/api/src/middleware/rate-limit.ts:198-200 | At most (k + 1) * max passes in any interval of k window lengths |
| RateLimit.LatchedIntervalBound | apps/api/src/middleware/rate-limit.ts:198-200 | At most twice that with a failing Redis |
| RateLimit.StraddlerPasses | apps/api/src/middleware/rate-limit.ts:71-79 | Why one clock reading is assumed: a request whose readings straddle the window's end restarts the counter and passes |
| RateLimit.RetryAfterReachesNextWindow | apps/api/src/middleware/rate-limit.ts:33-34 | Waiting for Retry-After from when the refusal is written always reaches a later window |
| CallerLimits.RetryAfterIsNoLonger | apps/api/src/middleware/rate-limit.ts:33-34 | One second less would not reach it, unless Retry-After is 1 |
| RateLimit.RemainingIsHonest | apps/api/src/middleware/rate-limit.ts:28-31 | In memory mode the remaining count is what the window still gives and the reset header is its end rounded up to a second |
| RedisWire.CommandRoundTrip | apps/api/src/middleware/rate-limit.ts:175-177 | A command is read back exactly by a reader of the Redis protocol, whatever its bytes and whatever follows |
| RedisWire.ArgumentRoundTrip | apps/api/src/middleware/rate-limit.ts:175-177 | An argument is delimited by its byte length, so CR and LF in it are content |
| RedisWire.EncodingIsInjective | apps/api/src/middleware/rate-limit.ts:175-177 | No two argument lists are encoded alike, nor one as a beginning of the other |
| RedisWire.StreamIsInjective | apps/api/src/middleware/rate-limit.ts:175-177 | A stream of commands determines the commands |
| RedisWire.IncrOnTheWire | apps/api/src/middleware/rate-limit.ts:175-177 | The bytes themselves, for INCR: asterisk, dollar sign, lengths, carriage return and line feed |

## Left out

- Timestamps that are not canonical or do not parse: the program skips such readings; comparison of ISO strings is modelled as comparison of instants.
- Floating-point error: sums of bonuses and the score quotient are real numbers.
- SHA-256: the hash is kept as the object that is hashed, so nothing is said about collisions.
- Generation of UUIDs: fresh ids are parameters; their text order is a total order on numbers.
- Candidate keys and limiter keys as text: they are structured values, so nothing is said about separators inside their parts.
- Case folding and blanks beyond ASCII in witness identities.
- The limiter's clean-up of caller names (character replacement, cut at 160 characters): distinct names that it merges share an identity before the model starts.
- Texts and times that nothing depends on: hypotheses, notification drafts, received and created times of evidence, candidates and decisions.
- Audit logs, domain events and counters; the awaits on them are interleaving points of `PipelineRuns`.
- Failures of queue calls in memory mode, which would abandon an operation between two steps. An API audit entry never throws: apps/api/src/modules/audit/service.ts:33-55 catches its own errors, also in the submission loop.
- Failures of database statements in the middle of an API or worker operation; one that stops after its decision leaves the rows that a preview leaves.
- Transactions that are sent but not yet executed: the contract answers a call at once, as the relayer's gas estimation does.
- SQL execution and interleavings inside select-then-upsert: each database operation is one serial step, and chain sweeps that overlap are not modelled, neither of several processes nor of one, where the timer (apps/api/src/modules/pipeline/scheduler.ts:184), the admin endpoint (apps/api/src/modules/dashboard/routes.ts:90) and a demo run (apps/api/src/modules/demo/service.ts:121) can start them side by side. Heartbeat sweeps may overlap in the model.
- The 5000-row cap of the database sweep and the 50-row cap of recent evidence: memory mode has neither.
- The tables of `Ledger` are values and their operations functions, not objects updated in place, because the program sends each update to the database as one statement.
- Commitments.OldestFirst: the selection of a sweep is a predicate on the chosen rows, not an execution of the query; rows created at the same time may come in any order.
- Explorer links and serialised audit inputs of the chain sweeps; the scheduler's timers and environment checks.
- The model calls behind an AI answer: it is any verdict with any confidence, or an exception.
- The contract itself: only its admission conditions (README.md:284) are stated, and a receipt is any function of the hash and may fail to arrive or arrive late.
- RateLimit.RateLimiter.IncrementMemoryCounter: the counter and its reset time share one clock reading, where the program reads the clock twice in a row.
- Redis itself, its expiry and the socket code: a reply is any growing number or a failure; replies are not parsed.
- HTTP routes, schemas, authentication, user interface, demo fixtures, trends, roles, notifications and roll-ups.
