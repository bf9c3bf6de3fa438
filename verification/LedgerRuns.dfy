/** Whole runs over the tables: API calls, worker jobs, reviews and serial chain sweeps, in any order. */
module LedgerRuns {
  import opened Collections
  import opened Commitments
  import opened Domain
  import opened Ledger
  import opened Pipeline
  import opened Scores

  datatype Step =
    | AddCandidate(c: Candidate)
    | ApiRun(c: Candidate, mode: Mode, now: Instant)
    | WorkerRun(c: Candidate, answer: AiAnswer, mode: Mode, now: Instant)
    | ReviewRun(c: Candidate, agent: Agent, verdict: Verdict, note: string, now: Instant)
    | SubmitSweep(batch: seq<ScoreKey>, limit: nat, now: Instant, answers: nat -> ChainAnswer)
    | IndexSweep(batch: seq<ScoreKey>, limit: nat, now: Instant, receipts: string -> Lookup)

  /** The contract takes one call for a zone and epoch: it reverts every later one, and a reverted call throws. */
  ghost predicate ContractAnswers(calls: seq<Call>, batch: seq<ScoreKey>, answers: nat -> ChainAnswer) {
    forall i :: 0 <= i < |batch| && TakenCalls(calls, batch[i]) != [] ==> !Taken(answers(i))
  }

  /** Candidates have ids of their own and are stored before anything decides on them; a sweep takes what its query
      selects, and gets the answers that the contract gives. */
  ghost predicate Enabled(db: Db, step: Step) {
    match step
    case AddCandidate(c) => forall d :: d in db.candidates ==> d.id != c.id
    case ApiRun(c, _, _) => c in db.candidates
    case WorkerRun(c, _, _, _) => c in db.candidates
    case ReviewRun(c, _, verdict, _, _) => c in db.candidates && verdict != Escalate
    case SubmitSweep(batch, limit, now, answers) =>
      && OldestFirst(db.commits, k => Submittable(db.commits, db.scores, now, k), limit, batch)
      && ContractAnswers(db.calls, batch, answers)
    case IndexSweep(batch, limit, _, _) => OldestFirst(db.commits, k => Indexable(db.commits, db.scores, k), limit,
        batch)
  }

  ghost function Next(db: Db, step: Step): Db
    requires Enabled(db, step)
  {
    match step
    case AddCandidate(c) => db.(candidates := db.candidates + [c])
    case ApiRun(c, mode, now) => ApiProcessed(db, c, mode, now)
    case WorkerRun(c, answer, mode, now) => WorkerPersisted(db, c, answer, mode, now)
    case ReviewRun(c, agent, verdict, note, now) => ReviewResolved(db, c, agent, verdict, note, now)
    case SubmitSweep(batch, _, now, answers) => SubmitSwept(db, batch, now, answers)
    case IndexSweep(batch, _, now, receipts) => IndexSwept(db, batch, receipts, now)
  }

  ghost predicate IsRun(db: Db, steps: seq<Step>)
    decreases |steps|
  {
    steps == [] || (Enabled(db, steps[0]) && IsRun(Next(db, steps[0]), steps[1..]))
  }

  ghost function After(db: Db, steps: seq<Step>): Db
    requires IsRun(db, steps)
    decreases |steps|
  {
    if steps == [] then db else After(Next(db, steps[0]), steps[1..])
  }

  // ---- Approval provenance ----

  /** A decision without a review approves only from confidence 0.85 on; a review record names the verdict that
      stands. */
  ghost predicate Warranted(row: DecisionRow) {
    match row.review
    case None => row.verdict == Approve ==> row.confidence >= 0.85
    case Some(r) => r.decision == row.verdict
  }

  ghost predicate AllWarranted(decisions: DecisionRows) {
    forall k :: k in decisions ==> Warranted(decisions[k])
  }

  lemma GateIsWarranted(c: Candidate)
    ensures Warranted(DecisionForCandidate(c))
  {
  }

  /** The guardrail: whatever the model answers, an approval below 0.85 becomes an escalation. */
  lemma WorkerIsWarranted(c: Candidate, answer: AiAnswer)
    ensures var row := AgentDecisionFromResult(c, OrchestrateCandidateReview(answer));
            && Warranted(row)
            && (row.verdict == Approve <==>
                  answer.Answers? && answer.verdict == Approve && answer.finalConfidence >= 0.85)
            && (row.verdict == Reject <==> answer.Answers? && answer.verdict == Reject)
            && (answer.Answers? && (answer.verdict != Approve || answer.finalConfidence >= 0.85) ==>
                row.confidence == answer.finalConfidence)
            && (answer.Fails? || (answer.verdict == Approve && answer.finalConfidence < 0.85) ==>
                  row == DecisionRow(ConfidenceAsReal(c), Escalate, None))
  {
  }

  // ---- Scores ----

  /** A score is computed from at least one vote, all of them stored candidates of its zone and epoch. */
  ghost predicate Built(candidates: seq<Candidate>, score: EpochScore, rows: seq<Candidate>) {
    && rows != []
    && score == EpochScoreFor(score.key, rows)
    && forall c :: c in rows ==> c in candidates && InEpoch(score.key, c)
  }

  ghost predicate SoundScore(candidates: seq<Candidate>, score: EpochScore) {
    && Aligned(score.key)
    && exists rows :: Built(candidates, score, rows)
  }

  ghost predicate ScoresSound(candidates: seq<Candidate>, scores: ScoreRows) {
    forall key :: key in scores ==> scores[key].key == key && SoundScore(candidates, scores[key])
  }

  lemma MoreCandidates(candidates: seq<Candidate>, c: Candidate, score: EpochScore)
    requires SoundScore(candidates, score)
    ensures SoundScore(candidates + [c], score)
  {
    hide InEpoch, EpochScoreFor;
    var rows :| Built(candidates, score, rows);
    assert Built(candidates + [c], score, rows);
  }

  /** What a score that has been built looks like from outside: its basis points are the nearest to the share of its
      up votes. */
  lemma {:induction false} SoundScoreIsFair(candidates: seq<Candidate>, score: EpochScore)
    requires SoundScore(candidates, score)
    ensures var votes := score.hashed.votes;
            && votes != [] && score.uptimeBps == UptimeBps(UpVotes(votes), |votes|)
            && 0 <= score.uptimeBps <= 10000
            && -|votes| < 2 * (score.uptimeBps * |votes| - 10000 * UpVotes(votes)) <= |votes|
  {
    var rows :| Built(candidates, score, rows);
    assert |score.hashed.votes| == |rows|;
    hide UptimeBps;
    BpsIsNearest(UpVotes(score.hashed.votes), |score.hashed.votes|);
  }

  lemma QueriedScoreIsSound(db: Db, c: Candidate)
    requires DistinctCandidates(db.candidates) && c in db.candidates && Approvals(db.decisions, c.id) > 0
    ensures ApiScore(db, KeyOf(c)).key == KeyOf(c) && SoundScore(db.candidates, ApiScore(db, KeyOf(c)))
  {
    hide JoinRows, Approvals, InEpoch, UptimeBps, FloorToEpoch;
    FloorBrackets(c.windowEnd);
    OwnEpochIsNeverEmpty(db, c);
    var rows := JoinRows(db, KeyOf(c));
    JoinAnswersQuery(db, KeyOf(c));
    forall x | x in rows
      ensures x in db.candidates && InEpoch(KeyOf(c), x)
    {
      QueryRowIsCandidate(rows, db, KeyOf(c), x);
    }
    assert Built(db.candidates, ApiScore(db, KeyOf(c)), rows);
  }

  lemma ApprovedOnce(db: Db, id: Id, agent: Agent, row: DecisionRow)
    requires row.verdict == Approve
    ensures Approvals(Upserted(db, id, agent, row).decisions, id) > 0
  {
  }

  // ---- Commitment rows ----

  /** A confirmed row has its hash, its block and its confirmation time. */
  ghost predicate RowSound(row: CommitRow) {
    && (row.status == Confirmed ==> row.txHash.Some? && row.blockNumber.Some? && row.confirmedAt.Some?)
    && (row.blockNumber.Some? ==> row.txHash.Some?)
    && (row.confirmedAt.Some? ==> row.blockNumber.Some?)
  }

  ghost predicate CommitsSound(scores: ScoreRows, commits: Rows) {
    forall key :: key in commits ==> key in scores && RowSound(commits[key])
  }

  /** What the contract asks of a call by itself: a whole-hour epoch that is over, basis points of at least one vote. */
  ghost predicate Admissible(candidates: seq<Candidate>, call: Call) {
    && call.epochSeconds % 3600 == 0
    && call.epochSeconds * 1000 == call.key.epochStart
    && call.epochSeconds * 1000 + EPOCH_DURATION_MS <= call.at
    && SoundScore(candidates, EpochScore(call.key, call.uptimeBps, call.hashed))
  }

  ghost predicate CallsSound(candidates: seq<Candidate>, calls: seq<Call>) {
    forall i :: 0 <= i < |calls| ==> Admissible(candidates, calls[i])
  }

  // ---- The chain log against the rows ----

  function StoredCalls(calls: seq<Call>, key: ScoreKey): seq<Call> {
    Filter(calls, (call: Call) => call.key == key && call.answer.Accepted?)
  }

  /** Calls the chain took whose hash was not stored. */
  function LostCalls(calls: seq<Call>, key: ScoreKey): seq<Call> {
    Filter(calls, (call: Call) => call.key == key && call.answer.Throws? && call.answer.taken)
  }

  function TakenCalls(calls: seq<Call>, key: ScoreKey): seq<Call> {
    Filter(calls, (call: Call) => call.key == key && Taken(call.answer))
  }

  function HashOf(commits: Rows, key: ScoreKey): Option<string> {
    if key in commits then commits[key].txHash else None
  }

  /** A row holds a hash exactly when one call for it was stored, and then that call's hash. */
  ghost predicate LogAgrees(commits: Rows, calls: seq<Call>, key: ScoreKey) {
    match HashOf(commits, key)
    case None => StoredCalls(calls, key) == []
    case Some(hash) => |StoredCalls(calls, key)| == 1 && StoredCalls(calls, key)[0].answer == Accepted(hash)
  }

  ghost predicate LogSound(commits: Rows, calls: seq<Call>) {
    forall key :: LogAgrees(commits, calls, key)
  }

  /** A call that the chain took is followed by another for its epoch only if its hash was lost, and that one is
      refused. */
  ghost predicate Exclusive(calls: seq<Call>) {
    forall j, i :: 0 <= j < i < |calls| && calls[j].key == calls[i].key && Taken(calls[j].answer) ==>
      calls[j].answer.Throws? && !Taken(calls[i].answer)
  }

  /** Everything a run keeps. */
  ghost predicate Sound(db: Db) {
    && DistinctCandidates(db.candidates)
    && AllWarranted(db.decisions)
    && ScoresSound(db.candidates, db.scores)
    && CommitsSound(db.scores, db.commits)
    && CallsSound(db.candidates, db.calls)
    && LogSound(db.commits, db.calls)
    && Exclusive(db.calls)
  }

  // ---- Steps that decide ----

  lemma QueueKeepsSound(db: Db, score: EpochScore, now: Instant)
    requires Sound(db) && SoundScore(db.candidates, score)
    ensures Sound(Queued(db, score, now))
  {
    hide SoundScore, Admissible, StoredCalls, Warranted, DistinctCandidates;
    var next := Queued(db, score, now);
    forall key
      ensures LogAgrees(next.commits, next.calls, key)
    {
      assert LogAgrees(db.commits, db.calls, key);
      assert HashOf(next.commits, key) == HashOf(db.commits, key);
    }
  }

  lemma DecideKeepsSound(db: Db, c: Candidate, agent: Agent, row: DecisionRow, now: Instant)
    requires Sound(db) && c in db.candidates && Warranted(row)
    ensures var decided := Upserted(db, c.id, agent, row);
            && Sound(decided)
            && (row.verdict == Approve ==>
                  && WorkerScore(decided, c) == ApiScore(decided, KeyOf(c))
                  && Sound(Queued(decided, ApiScore(decided, KeyOf(c)), now)))
  {
    hide ScoresSound, CommitsSound, CallsSound, LogSound, Warranted, Queued, ApiScore, WorkerScore, SoundScore,
        DistinctCandidates, Approvals;
    var decided := Upserted(db, c.id, agent, row);
    if row.verdict == Approve {
      ApprovedOnce(db, c.id, agent, row);
      OwnEpochIsNeverEmpty(decided, c);
      QueriedScoreIsSound(decided, c);
      QueueKeepsSound(decided, ApiScore(decided, KeyOf(c)), now);
    }
  }

  lemma ApiKeepsSound(db: Db, c: Candidate, mode: Mode, now: Instant)
    requires Sound(db) && c in db.candidates
    ensures Sound(ApiProcessed(db, c, mode, now))
  {
    hide Sound, Warranted, Queued, ApiScore, WorkerScore, DecisionForCandidate, Upserted;
    GateIsWarranted(c);
    DecideKeepsSound(db, c, PolicyGate, DecisionForCandidate(c), now);
  }

  lemma WorkerKeepsSound(db: Db, c: Candidate, answer: AiAnswer, mode: Mode, now: Instant)
    requires Sound(db) && c in db.candidates
    ensures Sound(WorkerPersisted(db, c, answer, mode, now))
  {
    hide Sound, Warranted, Queued, ApiScore, WorkerScore, AgentDecisionFromResult, OrchestrateCandidateReview, Upserted;
    WorkerIsWarranted(c, answer);
    DecideKeepsSound(db, c, AiVerifier, AgentDecisionFromResult(c, OrchestrateCandidateReview(answer)), now);
  }

  lemma ReviewKeepsSound(db: Db, c: Candidate, agent: Agent, verdict: Verdict, note: string, now: Instant)
    requires Sound(db) && c in db.candidates
    ensures Sound(ReviewResolved(db, c, agent, verdict, note, now))
  {
    hide Sound, Queued, ApiScore, WorkerScore, Upserted;
    var key := DecisionKey(c.id, agent);
    if key in db.decisions {
      DecideKeepsSound(db, c, agent, ReviewedRow(db.decisions[key], verdict, note), now);
    }
  }

  lemma AddKeepsSound(db: Db, c: Candidate)
    requires Sound(db) && Enabled(db, AddCandidate(c))
    ensures Sound(Next(db, AddCandidate(c)))
  {
    hide SoundScore, Warranted, LogSound, CommitsSound;
    forall key | key in db.scores
      ensures SoundScore(db.candidates + [c], db.scores[key])
    {
      MoreCandidates(db.candidates, c, db.scores[key]);
    }
    forall i | 0 <= i < |db.calls|
      ensures Admissible(db.candidates + [c], db.calls[i])
    {
      var call := db.calls[i];
      MoreCandidates(db.candidates, c, EpochScore(call.key, call.uptimeBps, call.hashed));
    }
  }

  // ---- Sweeps ----

  ghost predicate AllSubmittable(commits: Rows, scores: ScoreRows, now: Instant, batch: seq<ScoreKey>) {
    && Distinct(batch)
    && forall k :: k in batch ==> k in commits && k in scores && Submittable(commits, scores, now, k)
  }

  lemma {:induction false} CommitCallAdmissible(candidates: seq<Candidate>, score: EpochScore, now: Instant,
      answer: ChainAnswer)
    requires SoundScore(candidates, score) && score.key.epochStart + EPOCH_DURATION_MS <= now
    ensures Admissible(candidates, CommitCall(score, now, answer))
  {
    var rows :| Built(candidates, score, rows);
    hide Built, InEpoch;
    WholeSeconds(score.key.epochStart);
  }

  lemma WholeSeconds(t: Instant)
    requires t % EPOCH_DURATION_MS == 0
    ensures (t / 1000) * 1000 == t && (t / 1000) % 3600 == 0
  {
    var h := t / EPOCH_DURATION_MS;
    assert t == h * 3600 * 1000;
    assert t / 1000 == h * 3600;
  }

  lemma SubmitKeepsCalls(db: Db, batch: seq<ScoreKey>, now: Instant, answers: nat -> ChainAnswer)
    requires Sound(db) && AllSubmittable(db.commits, db.scores, now, batch)
    ensures CallsSound(db.candidates, SubmitSwept(db, batch, now, answers).calls)
  {
    hide Admissible, CommitCall, SoundScore, Submitted, LogSound, AllWarranted, CommitsSound;
    CallsFollowBatch(db.commits, db.scores, batch, |batch|, now, answers);
    var made := Submitted(db.commits, db.scores, batch, |batch|, now, answers).calls;
    forall j | 0 <= j < |made|
      ensures Admissible(db.candidates, made[j])
    {
      assert batch[j] in batch;
      CommitCallAdmissible(db.candidates, db.scores[batch[j]], now, answers(j));
    }
  }

  lemma SettledRow(commits: Rows, scores: ScoreRows, batch: seq<ScoreKey>, called: nat, now: Instant,
      answers: nat -> ChainAnswer, key: ScoreKey, row: CommitRow)
    requires AllSubmittable(commits, scores, now, batch) && key in commits && called <= |batch|
    requires RowSettled(row, commits[key], batch, called, answers, key)
    ensures RowSound(commits[key]) ==> RowSound(row)
    ensures commits[key].txHash.Some? ==> key !in batch && row == commits[key]
  {
    if key in batch[..called] {
      var j :| 0 <= j < called && batch[j] == key;
      assert key in batch;
    }
  }

  lemma SubmitKeepsCommits(db: Db, batch: seq<ScoreKey>, now: Instant, answers: nat -> ChainAnswer)
    requires Sound(db) && AllSubmittable(db.commits, db.scores, now, batch)
    ensures CommitsSound(db.scores, SubmitSwept(db, batch, now, answers).commits)
  {
    hide Submitted, LogSound, AllWarranted, ScoresSound, CallsSound, RowSound, RowSettled, Submittable;
    var done := Submitted(db.commits, db.scores, batch, |batch|, now, answers);
    forall key | key in db.commits
      ensures key in done.rows && RowSound(done.rows[key])
    {
      RowAfterSweep(db.commits, db.scores, batch, |batch|, now, answers, key);
      SettledRow(db.commits, db.scores, batch, |done.calls|, now, answers, key, done.rows[key]);
    }
    SweepKeepsKeys(db, batch, now, answers);
  }

  lemma SweepKeepsKeys(db: Db, batch: seq<ScoreKey>, now: Instant, answers: nat -> ChainAnswer)
    requires AllSubmittable(db.commits, db.scores, now, batch)
    ensures SubmitSwept(db, batch, now, answers).commits.Keys == db.commits.Keys
  {
    hide Submitted, Submittable;
    if batch == [] {
      SubmittedNothing(db.commits, db.scores, batch, now, answers);
    } else {
      assert batch[0] in batch;
      RowAfterSweep(db.commits, db.scores, batch, |batch|, now, answers, batch[0]);
    }
  }

  /** One more call: the log of a row grows exactly when its row receives a hash. */
  lemma CallKeepsLog(commits: Rows, calls: seq<Call>, score: EpochScore, now: Instant, answer: ChainAnswer,
      key: ScoreKey)
    requires LogAgrees(commits, calls, key) && score.key in commits && commits[score.key].txHash.None?
    ensures LogAgrees(commits[score.key := Answered(commits[score.key], answer)],
        calls + [CommitCall(score, now, answer)], key)
  {
    FilterConcat(calls, [CommitCall(score, now, answer)], (call: Call) => call.key == key && call.answer.Accepted?);
  }

  lemma {:induction false} SubmitKeepsLog(db: Db, batch: seq<ScoreKey>, n: nat, now: Instant,
      answers: nat -> ChainAnswer, key: ScoreKey)
    requires n <= |batch| && ScoresSound(db.candidates, db.scores) && AllSubmittable(db.commits, db.scores, now, batch)
    requires LogAgrees(db.commits, db.calls, key)
    ensures var done := Submitted(db.commits, db.scores, batch, n, now, answers);
            LogAgrees(done.rows, db.calls + done.calls, key)
  {
    hide Submitted, LogAgrees, CommitCall, Answered, SoundScore;
    if n == 0 {
      SubmittedNothing(db.commits, db.scores, batch, now, answers);
      assert db.calls + [] == db.calls;
    } else {
      SubmitKeepsLog(db, batch, n - 1, now, answers, key);
      var before := Submitted(db.commits, db.scores, batch, n - 1, now, answers);
      if before.failed {
        FailureEndsSweep(db.commits, db.scores, batch, n - 1, n, now, answers);
      } else {
        var next := batch[n - 1];
        SubmittedOneMore(db.commits, db.scores, batch, n - 1, now, answers);
        NextIsUntouched(db, batch, n - 1, now, answers);
        CallKeepsLog(before.rows, db.calls + before.calls, db.scores[next], now, answers(n - 1), key);
        assert db.calls + (before.calls + [CommitCall(db.scores[next], now, answers(n - 1))])
            == db.calls + before.calls + [CommitCall(db.scores[next], now, answers(n - 1))];
      }
    }
  }

  lemma NextIsUntouched(db: Db, batch: seq<ScoreKey>, n: nat, now: Instant, answers: nat -> ChainAnswer)
    requires n < |batch| && AllSubmittable(db.commits, db.scores, now, batch)
    ensures var rows := Submitted(db.commits, db.scores, batch, n, now, answers).rows;
            batch[n] in db.commits && batch[n] in rows && rows[batch[n]] == db.commits[batch[n]] &&
                rows[batch[n]].txHash.None?
  {
    hide Submitted;
    assert batch[n] in batch;
    RowAfterSweep(db.commits, db.scores, batch, n, now, answers, batch[n]);
  }

  /** No call of a submittable row's epoch was stored, for the row would hold its hash. */
  lemma SubmittableHasNoStoredCall(db: Db, now: Instant, key: ScoreKey, call: Call)
    requires LogAgrees(db.commits, db.calls, key) && Submittable(db.commits, db.scores, now, key)
    requires call in db.calls && call.key == key
    ensures call.answer.Throws?
    ensures Taken(call.answer) ==> TakenCalls(db.calls, key) != []
  {
    assert Taken(call.answer) ==> call in TakenCalls(db.calls, key);
    assert call.answer.Accepted? ==> call in StoredCalls(db.calls, key);
  }

  lemma ExclusiveConcat(earlier: seq<Call>, made: seq<Call>)
    requires Exclusive(earlier)
    requires forall j, i :: 0 <= j < i < |made| ==> made[j].key != made[i].key
    requires forall j, i ::
               0 <= j < |earlier| && 0 <= i < |made| && earlier[j].key == made[i].key && Taken(earlier[j].answer) ==>
               earlier[j].answer.Throws? && !Taken(made[i].answer)
    ensures Exclusive(earlier + made)
  {
    hide Taken;
  }

  lemma SubmitKeepsExclusive(db: Db, batch: seq<ScoreKey>, now: Instant, answers: nat -> ChainAnswer)
    requires Sound(db) && AllSubmittable(db.commits, db.scores, now, batch) && ContractAnswers(db.calls, batch, answers)
    ensures Exclusive(SubmitSwept(db, batch, now, answers).calls)
  {
    hide Submitted, AllWarranted, CommitsSound, CallsSound, LogAgrees, SoundScore, Submittable, Taken, TakenCalls,
        Exclusive;
    CallsFollowBatch(db.commits, db.scores, batch, |batch|, now, answers);
    var made := Submitted(db.commits, db.scores, batch, |batch|, now, answers).calls;
    forall i | 0 <= i < |made|
      ensures made[i].key == batch[i] && made[i].answer == answers(i)
    {
      assert batch[i] in batch;
    }
    forall j, i | 0 <= j < |db.calls| && 0 <= i < |made| && db.calls[j].key == made[i].key && Taken(db.calls[j].answer)
      ensures db.calls[j].answer.Throws? && !Taken(made[i].answer)
    {
      assert batch[i] in batch;
      SubmittableHasNoStoredCall(db, now, batch[i], db.calls[j]);
    }
    ExclusiveConcat(db.calls, made);
  }

  lemma {:induction false} SubmitKeepsSound(db: Db, batch: seq<ScoreKey>, now: Instant, answers: nat -> ChainAnswer)
    requires Sound(db) && AllSubmittable(db.commits, db.scores, now, batch) && ContractAnswers(db.calls, batch, answers)
    ensures Sound(SubmitSwept(db, batch, now, answers))
  {
    SubmitKeepsCalls(db, batch, now, answers);
    SubmitKeepsCommits(db, batch, now, answers);
    SubmitKeepsExclusive(db, batch, now, answers);
    hide Submitted, AllWarranted, ScoresSound, CommitsSound, CallsSound, LogAgrees, Exclusive, ContractAnswers;
    var next := SubmitSwept(db, batch, now, answers);
    forall key
      ensures LogAgrees(next.commits, next.calls, key)
    {
      SubmitKeepsLog(db, batch, |batch|, now, answers, key);
    }
  }

  lemma {:induction false} IndexKeepsSound(db: Db, batch: seq<ScoreKey>, now: Instant, receipts: string -> Lookup)
    requires forall k :: k in batch ==> k in db.commits && Indexable(db.commits, db.scores, k)
    requires Sound(db)
    ensures Sound(IndexSwept(db, batch, receipts, now))
  {
    hide AllWarranted, ScoresSound, CallsSound, StoredCalls;
    var next := IndexSwept(db, batch, receipts, now);
    forall key
      ensures LogAgrees(next.commits, next.calls, key)
    {
      assert LogAgrees(db.commits, db.calls, key);
      assert HashOf(next.commits, key) == HashOf(db.commits, key);
    }
  }

  lemma BatchIsSubmittable(db: Db, batch: seq<ScoreKey>, limit: nat, now: Instant)
    requires OldestFirst(db.commits, k => Submittable(db.commits, db.scores, now, k), limit, batch)
    ensures AllSubmittable(db.commits, db.scores, now, batch)
  {
  }

  lemma BatchIsIndexable(db: Db, batch: seq<ScoreKey>, limit: nat)
    requires OldestFirst(db.commits, k => Indexable(db.commits, db.scores, k), limit, batch)
    ensures forall k :: k in batch ==> k in db.commits && Indexable(db.commits, db.scores, k)
  {
  }

  // ---- Whole runs ----

  lemma StepKeepsSound(db: Db, step: Step)
    requires Sound(db) && Enabled(db, step)
    ensures Sound(Next(db, step))
  {
    hide Sound, ApiProcessed, WorkerPersisted, ReviewResolved, SubmitSwept, IndexSwept, OldestFirst, Submittable,
        Indexable, AllSubmittable;
    match step
    case AddCandidate(c) => AddKeepsSound(db, c);
    case ApiRun(c, mode, now) => ApiKeepsSound(db, c, mode, now);
    case WorkerRun(c, answer, mode, now) => WorkerKeepsSound(db, c, answer, mode, now);
    case ReviewRun(c, agent, verdict, note, now) => ReviewKeepsSound(db, c, agent, verdict, note, now);
    case SubmitSweep(batch, limit, now, answers) =>
      BatchIsSubmittable(db, batch, limit, now);
      SubmitKeepsSound(db, batch, now, answers);
    case IndexSweep(batch, limit, now, receipts) =>
      BatchIsIndexable(db, batch, limit);
      IndexKeepsSound(db, batch, now, receipts);
  }

  /** Every reachable state is sound: approvals are warranted, scores and calls come from stored candidates, calls
      are admissible, confirmed rows are complete, rows hold the hashes of the chain log, and a second call for an
      epoch the chain has taken comes only after a lost hash and is refused. */
  lemma {:induction false} RunsAreSound(db: Db, steps: seq<Step>)
    requires Sound(db) && IsRun(db, steps)
    ensures Sound(After(db, steps))
    decreases |steps|
  {
    hide Sound, Next, Enabled;
    if steps != [] {
      StepKeepsSound(db, steps[0]);
      RunsAreSound(Next(db, steps[0]), steps[1..]);
    }
  }

  lemma StartIsSound()
    ensures Sound(NO_ROWS)
  {
  }

  /** In every run, an approving decision has confidence at least 0.85 or carries the record of a review that
      approved it. */
  lemma {:induction false} ApprovalProvenance(steps: seq<Step>, key: DecisionKey)
    requires IsRun(NO_ROWS, steps) && key in After(NO_ROWS, steps).decisions
    ensures var row := After(NO_ROWS, steps).decisions[key];
            row.verdict == Approve ==>
              row.confidence >= 0.85 || (row.review.Some? && row.review.value.decision == Approve)
  {
    StartIsSound();
    RunsAreSound(NO_ROWS, steps);
    hide IsRun, After, DistinctCandidates, ScoresSound, CommitsSound, CallsSound, LogSound;
    assert Warranted(After(NO_ROWS, steps).decisions[key]);
  }

  /** Every commitEpoch call of every run meets the contract's conditions on the call itself: its epoch is a whole hour
      and over, its basis points are valid and belong to at least one vote. DuplicateIffLost gives the remaining one. */
  lemma {:induction false} EveryCallIsAdmissible(steps: seq<Step>, i: nat)
    requires IsRun(NO_ROWS, steps) && i < |After(NO_ROWS, steps).calls|
    ensures var call := After(NO_ROWS, steps).calls[i];
            var votes := call.hashed.votes;
            && call.epochSeconds % 3600 == 0 && call.epochSeconds * 1000 + EPOCH_DURATION_MS <= call.at
            && votes != [] && 0 <= call.uptimeBps <= 10000
            && -|votes| < 2 * (call.uptimeBps * |votes| - 10000 * UpVotes(votes)) <= |votes|
  {
    StartIsSound();
    RunsAreSound(NO_ROWS, steps);
    hide IsRun, After, DistinctCandidates, ScoresSound, CommitsSound, AllWarranted, LogSound, SoundScore;
    var db := After(NO_ROWS, steps);
    assert Admissible(db.candidates, db.calls[i]);
    SoundScoreIsFair(db.candidates, EpochScore(db.calls[i].key, db.calls[i].uptimeBps, db.calls[i].hashed));
  }

  /** A confirmed row of any run names its transaction, its block and when it was confirmed. */
  lemma {:induction false} ConfirmedIsComplete(steps: seq<Step>, key: ScoreKey)
    requires IsRun(NO_ROWS, steps) && key in After(NO_ROWS, steps).commits
    requires After(NO_ROWS, steps).commits[key].status == Confirmed
    ensures var row := After(NO_ROWS, steps).commits[key];
            row.txHash.Some? && row.blockNumber.Some? && row.confirmedAt.Some?
  {
    StartIsSound();
    RunsAreSound(NO_ROWS, steps);
    hide IsRun, After, DistinctCandidates, ScoresSound, AllWarranted, CallsSound, LogSound;
    assert RowSound(After(NO_ROWS, steps).commits[key]);
  }

  // ---- One transaction for each epoch ----

  lemma {:induction false} TakenAreStoredOrLost(calls: seq<Call>, key: ScoreKey)
    ensures |TakenCalls(calls, key)| == |StoredCalls(calls, key)| + |LostCalls(calls, key)|
  {
    if calls != [] {
      TakenAreStoredOrLost(calls[1..], key);
    }
  }

  lemma {:induction false} TakenAtMostOnce(calls: seq<Call>, key: ScoreKey)
    requires Exclusive(calls)
    ensures |TakenCalls(calls, key)| <= 1
  {
    if calls != [] {
      var init, last := calls[..|calls| - 1], calls[|calls| - 1];
      assert calls == init + [last];
      TakenAtMostOnce(init, key);
      FilterConcat(init, [last], (call: Call) => call.key == key && Taken(call.answer));
      assert TakenCalls([last], key) == if last.key == key && Taken(last.answer) then [last] else [];
      assert last.key == key && Taken(last.answer) ==> forall call :: call in init ==> call !in TakenCalls(init, key);
      assert TakenCalls(init, key) == [] || TakenCalls(init, key)[0] in init;
    }
  }

  /** The chain takes the transaction of at most one commitEpoch call for a zone and epoch. It has taken one exactly
      when
      the row holds a hash or a hash was lost, and never both. */
  lemma {:induction false} AtMostOneTaken(steps: seq<Step>, key: ScoreKey)
    requires IsRun(NO_ROWS, steps)
    ensures var db := After(NO_ROWS, steps);
            && |TakenCalls(db.calls, key)| <= 1
            && |TakenCalls(db.calls, key)| == |LostCalls(db.calls, key)| + if HashOf(db.commits, key).Some? then 1
                else 0
  {
    StartIsSound();
    RunsAreSound(NO_ROWS, steps);
    var db := After(NO_ROWS, steps);
    hide IsRun, After, DistinctCandidates, ScoresSound, CommitsSound, AllWarranted, CallsSound,
         TakenCalls, StoredCalls, LostCalls, Exclusive;
    TakenCount(db, key);
  }

  lemma TakenCount(db: Db, key: ScoreKey)
    requires Sound(db)
    ensures |TakenCalls(db.calls, key)| <= 1
    ensures |TakenCalls(db.calls, key)| == |LostCalls(db.calls, key)| + if HashOf(db.commits, key).Some? then 1 else 0
  {
    hide DistinctCandidates, ScoresSound, CommitsSound, AllWarranted, CallsSound, TakenCalls, StoredCalls, LostCalls,
        Exclusive;
    assert LogAgrees(db.commits, db.calls, key);
    TakenAreStoredOrLost(db.calls, key);
    TakenAtMostOnce(db.calls, key);
  }

  /** The exact duplicate condition: a call comes after one for the same zone and epoch that the chain took, if and
      only if the hash of an earlier call for it was lost. */
  lemma {:induction false} DuplicateIffLost(steps: seq<Step>, i: nat)
    requires IsRun(NO_ROWS, steps) && i < |After(NO_ROWS, steps).calls|
    ensures var calls := After(NO_ROWS, steps).calls;
            TakenCalls(calls[..i], calls[i].key) != [] <==> LostCalls(calls[..i], calls[i].key) != []
    ensures var calls := After(NO_ROWS, steps).calls;
            TakenCalls(calls[..i], calls[i].key) != [] ==> !Taken(calls[i].answer)
  {
    StartIsSound();
    RunsAreSound(NO_ROWS, steps);
    var calls := After(NO_ROWS, steps).calls;
    hide IsRun, After, DistinctCandidates, ScoresSound, CommitsSound, AllWarranted, CallsSound, LogSound;
    DuplicateInLog(calls, i);
  }

  lemma DuplicateInLog(calls: seq<Call>, i: nat)
    requires Exclusive(calls) && i < |calls|
    ensures TakenCalls(calls[..i], calls[i].key) != [] <==> LostCalls(calls[..i], calls[i].key) != []
    ensures TakenCalls(calls[..i], calls[i].key) != [] ==> !Taken(calls[i].answer)
  {
    var key := calls[i].key;
    if TakenCalls(calls[..i], key) != [] {
      var first := TakenCalls(calls[..i], key)[0];
      assert first in TakenCalls(calls[..i], key);
      var j :| 0 <= j < i && calls[..i][j] == first;
      assert calls[j] == first;
      assert first in LostCalls(calls[..i], key);
    }
    if LostCalls(calls[..i], key) != [] {
      var first := LostCalls(calls[..i], key)[0];
      assert first in LostCalls(calls[..i], key);
      assert first in TakenCalls(calls[..i], key);
    }
  }

  // ---- After a lost hash ----

  lemma StepAddsCalls(db: Db, step: Step)
    requires Enabled(db, step)
    ensures db.calls <= Next(db, step).calls
  {
    hide ApiScore, WorkerScore, DecisionForCandidate, AgentDecisionFromResult, OrchestrateCandidateReview,
         OldestFirst, Submittable, Indexable, Submitted, ContractAnswers;
  }

  lemma {:induction false} CallsStay(db: Db, steps: seq<Step>)
    requires IsRun(db, steps)
    ensures db.calls <= After(db, steps).calls
    decreases |steps|
  {
    hide Next, Enabled;
    if steps != [] {
      StepAddsCalls(db, steps[0]);
      CallsStay(Next(db, steps[0]), steps[1..]);
    }
  }

  lemma LostStays(calls: seq<Call>, later: seq<Call>, key: ScoreKey)
    requires calls <= later && LostCalls(calls, key) != []
    ensures LostCalls(later, key) != []
  {
    var lost := LostCalls(calls, key)[0];
    assert lost in LostCalls(calls, key);
    assert lost in later;
    assert lost in LostCalls(later, key);
  }

  /** A lost hash is never made good. Although the chain holds the epoch, in every continuation its row holds no hash
      and is not confirmed, and every further call for it is refused. */
  lemma {:induction false} LostHashIsForEver(db: Db, steps: seq<Step>, key: ScoreKey)
    requires Sound(db) && IsRun(db, steps) && LostCalls(db.calls, key) != []
    ensures var end := After(db, steps);
            && HashOf(end.commits, key).None?
            && (key in end.commits ==> end.commits[key].status != Confirmed)
            && db.calls <= end.calls
            && forall i :: |db.calls| <= i < |end.calls| && end.calls[i].key == key ==> !Taken(end.calls[i].answer)
  {
    var end := After(db, steps);
    RunsAreSound(db, steps);
    CallsStay(db, steps);
    LostStays(db.calls, end.calls, key);
    TakenCount(end, key);
    var lost := LostCalls(db.calls, key)[0];
    assert lost in LostCalls(db.calls, key);
    var j :| 0 <= j < |db.calls| && db.calls[j] == lost;
    assert end.calls[j] == lost;
    hide IsRun, After, DistinctCandidates, ScoresSound, AllWarranted, CallsSound, LogSound, TakenCalls, LostCalls;
  }

  function CallsFor(calls: seq<Call>, key: ScoreKey): seq<Call> {
    Filter(calls, (call: Call) => call.key == key)
  }

  lemma {:induction false} NoneFor(calls: seq<Call>, key: ScoreKey)
    requires forall i :: 0 <= i < |calls| ==> calls[i].key != key
    ensures CallsFor(calls, key) == []
  {
    if calls != [] {
      assert forall i :: 0 <= i < |calls[1..]| ==> calls[1..][i] == calls[i + 1];
      NoneFor(calls[1..], key);
    }
  }

  lemma SweepSkipsSettled(db: Db, batch: seq<ScoreKey>, now: Instant, answers: nat -> ChainAnswer, key: ScoreKey)
    requires AllSubmittable(db.commits, db.scores, now, batch) && ScoresSound(db.candidates, db.scores)
    requires key in db.commits && db.commits[key].txHash.Some?
    ensures var next := SubmitSwept(db, batch, now, answers);
            && key in next.commits && next.commits[key] == db.commits[key]
            && CallsFor(next.calls, key) == CallsFor(db.calls, key)
  {
    hide Submitted, CallsFor, SoundScore;
    var done := Submitted(db.commits, db.scores, batch, |batch|, now, answers);
    RowAfterSweep(db.commits, db.scores, batch, |batch|, now, answers, key);
    SettledRow(db.commits, db.scores, batch, |done.calls|, now, answers, key, done.rows[key]);
    CallsFollowBatch(db.commits, db.scores, batch, |batch|, now, answers);
    forall j | 0 <= j < |done.calls|
      ensures done.calls[j].key != key
    {
      assert batch[j] in batch;
    }
    NoneFor(done.calls, key);
    CallsForConcat(db.calls, done.calls, key);
  }

  lemma CallsForConcat(a: seq<Call>, b: seq<Call>, key: ScoreKey)
    ensures CallsFor(a + b, key) == CallsFor(a, key) + CallsFor(b, key)
  {
    FilterConcat(a, b, (call: Call) => call.key == key);
  }

  lemma {:induction false} StepKeepsHash(db: Db, step: Step, key: ScoreKey)
    requires Sound(db) && Enabled(db, step) && HashOf(db.commits, key).Some?
    ensures HashOf(Next(db, step).commits, key) == HashOf(db.commits, key)
    ensures CallsFor(Next(db, step).calls, key) == CallsFor(db.calls, key)
  {
    hide CallsFor, ApiScore, WorkerScore, DecisionForCandidate, AgentDecisionFromResult, OrchestrateCandidateReview,
         OldestFirst, Submittable, Indexable, AllSubmittable, SubmitSwept, ScoresSound, CommitsSound, LogSound,
             CallsSound;
    match step
    case SubmitSweep(batch, limit, now, answers) =>
      BatchIsSubmittable(db, batch, limit, now);
      SweepSkipsSettled(db, batch, now, answers, key);
    case _ =>
  }

  /** Once a row holds a hash it keeps it for ever, through re-queues, reviews and sweeps, and commitEpoch is never
      called for its zone and epoch again. */
  lemma {:induction false} HashIsForEver(db: Db, steps: seq<Step>, key: ScoreKey)
    requires Sound(db) && IsRun(db, steps) && HashOf(db.commits, key).Some?
    ensures HashOf(After(db, steps).commits, key) == HashOf(db.commits, key)
    ensures CallsFor(After(db, steps).calls, key) == CallsFor(db.calls, key)
    decreases |steps|
  {
    hide Sound, Next, Enabled, HashOf, CallsFor;
    if steps != [] {
      StepKeepsSound(db, steps[0]);
      StepKeepsHash(db, steps[0], key);
      HashIsForEver(Next(db, steps[0]), steps[1..], key);
    }
  }
}
