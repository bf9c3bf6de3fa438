/** Where the tables do less than one might hope, each on a run that reaches the case. */
module LedgerLimits {
  import opened Attestation
  import opened Commitments
  import opened Domain
  import opened Ledger
  import opened LedgerRuns
  import opened Pipeline
  import opened Scores

  const EPOCH := ScoreKey(1, 0)
  const OUTAGE := Candidate(1, 1, Outage, 9000, 0, 0, [1])
  const RESTORED := Candidate(2, 1, Restored, 7000, 0, 0, [2])

  lemma Continues(db: Db, step: Step, rest: seq<Step>)
    requires Enabled(db, step) && IsRun(Next(db, step), rest)
    ensures IsRun(db, [step] + rest) && After(db, [step] + rest) == After(Next(db, step), rest)
  {
    assert ([step] + rest)[1..] == rest;
  }

  lemma SoleRow(db: Db, now: Instant)
    requires db.commits.Keys == {EPOCH} && Submittable(db.commits, db.scores, now, EPOCH)
    ensures OldestFirst(db.commits, k => Submittable(db.commits, db.scores, now, k), 1, [EPOCH])
  {
  }

  lemma SoleCall(db: Db, now: Instant, answers: nat -> ChainAnswer)
    requires EPOCH in db.commits && EPOCH in db.scores
    ensures SubmitSwept(db, [EPOCH], now, answers) ==
            db.(commits := db.commits[EPOCH := Answered(db.commits[EPOCH], answers(0))],
                calls := db.calls + [CommitCall(db.scores[EPOCH], now, answers(0))])
  {
    SubmittedNothing(db.commits, db.scores, [EPOCH], now, answers);
    SubmittedOneMore(db.commits, db.scores, [EPOCH], 0, now, answers);
  }

  // ---- One lost hash: the chain holds the epoch and the row never will ----

  const LOST: nat -> ChainAnswer := i => Throws(true, true)
  const REFUSED: nat -> ChainAnswer := i => Throws(false, true)
  const TAKEN: nat -> ChainAnswer := i => Accepted("hash")
  const PROVED := [AddCandidate(OUTAGE), ApiRun(OUTAGE, Live, 0)]
  const LOST_ONCE := [
    SubmitSweep([EPOCH], 1, EPOCH_DURATION_MS, LOST), ReviewRun(OUTAGE, PolicyGate, Approve, "seen", 0),
    SubmitSweep([EPOCH], 1, EPOCH_DURATION_MS, REFUSED)]

  const DECIDED := map[DecisionKey(1, PolicyGate) := DecisionForCandidate(OUTAGE)]
  const REVIEWED := map[DecisionKey(1, PolicyGate) := ReviewedRow(DecisionForCandidate(OUTAGE), Approve, "seen")]
  const FRESH_ROW := CommitRow(Pending, None, None, None, 0)

  ghost function Scored(decisions: DecisionRows, commit: CommitRow, calls: seq<Call>): Db {
    Db([OUTAGE], decisions, map[EPOCH := EpochScoreFor(EPOCH, [OUTAGE])], map[EPOCH := commit], calls)
  }

  ghost function Proved(commit: CommitRow, calls: seq<Call>): Db {
    Scored(DECIDED, commit, calls)
  }

  lemma OutageScore(db: Db)
    requires db.candidates == [OUTAGE] && (db.decisions == DECIDED || db.decisions == REVIEWED)
    ensures ApiScore(db, EPOCH) == EpochScoreFor(EPOCH, [OUTAGE])
  {
    hide EpochScoreFor;
    var rows := [OUTAGE];
    assert Approvals(db.decisions, 1) == 1;
    RowsOfAnswer(rows, db, EPOCH);
  }

  lemma OutageQueues(db: Db, row: CommitRow)
    requires db.candidates == [OUTAGE] && (db.decisions == DECIDED || db.decisions == REVIEWED)
    requires db.scores.Keys <= {EPOCH} && db.commits.Keys <= {EPOCH} && row == Requeued(db.commits, EPOCH, 0)
    ensures KeyOf(OUTAGE) == EPOCH && Queued(db, ApiScore(db, EPOCH), 0) == Scored(db.decisions, row, db.calls)
  {
    hide ApiScore, UptimeBps;
    OutageScore(db);
    var score := EpochScoreFor(EPOCH, [OUTAGE]);
    assert db.scores[EPOCH := score] == map[EPOCH := score];
    assert db.commits[EPOCH := row] == map[EPOCH := row];
  }

  /** Running the pipeline on the outage stores its score and queues its row. */
  lemma OutageRuns(db: Db)
    requires db == NO_ROWS.(candidates := [OUTAGE])
    ensures Enabled(db, ApiRun(OUTAGE, Live, 0)) && Next(db, ApiRun(OUTAGE, Live, 0)) == Proved(FRESH_ROW, [])
  {
    hide ApiScore, Queued;
    var decided := Upserted(db, 1, PolicyGate, DecisionForCandidate(OUTAGE));
    assert decided.decisions == DECIDED;
    OutageQueues(decided, FRESH_ROW);
  }

  /** A reviewer approves the outage once more: its row is queued again. */
  lemma OutageReviewed(commit: CommitRow, calls: seq<Call>)
    ensures var db, step := Proved(commit, calls), ReviewRun(OUTAGE, PolicyGate, Approve, "seen", 0);
            Enabled(db, step) && Next(db, step) == Scored(REVIEWED, commit.(status := Pending), calls)
  {
    hide ApiScore, Queued, EpochScoreFor;
    var db := Proved(commit, calls);
    var decided := Upserted(db, 1, PolicyGate, ReviewedRow(DecisionForCandidate(OUTAGE), Approve, "seen"));
    assert decided.decisions == REVIEWED;
    OutageQueues(decided, commit.(status := Pending));
  }

  /** One sweep over the one row. */
  lemma RowSweeps(decisions: DecisionRows, commit: CommitRow, calls: seq<Call>, answers: nat -> ChainAnswer)
    requires commit.status == Pending && commit.txHash.None?
    requires TakenCalls(calls, EPOCH) != [] ==> !Taken(answers(0))
    ensures var db, step := Scored(decisions, commit, calls), SubmitSweep([EPOCH], 1, EPOCH_DURATION_MS, answers);
            && Enabled(db, step)
            && Next(db, step) == Scored(decisions, Answered(commit, answers(0)),
                calls + [CommitCall(EpochScoreFor(EPOCH, [OUTAGE]), EPOCH_DURATION_MS, answers(0))])
  {
    hide EpochScoreFor, Submitted, OldestFirst, CommitCall;
    var db := Scored(decisions, commit, calls);
    SoleRow(db, EPOCH_DURATION_MS);
    SoleCall(db, EPOCH_DURATION_MS, answers);
    assert db.commits[EPOCH := Answered(commit, answers(0))] == map[EPOCH := Answered(commit, answers(0))];
  }

  lemma OutageProved()
    ensures IsRun(NO_ROWS, PROVED) && After(NO_ROWS, PROVED) == Proved(FRESH_ROW, [])
  {
    hide ApiProcessed, Proved;
    var one := NO_ROWS.(candidates := [OUTAGE]);
    assert Next(NO_ROWS, PROVED[0]) == one;
    OutageRuns(one);
    Continues(one, PROVED[1], []);
    Continues(NO_ROWS, PROVED[0], [PROVED[1]]);
    assert PROVED == [PROVED[0]] + [PROVED[1]] && [PROVED[1]] == [PROVED[1]] + [];
  }

  /** The chain takes a call, its hash is not stored, a review re-queues the row: the next sweep calls again and is
      refused. */
  lemma {:induction false} LostHashIsRefused()
    ensures IsRun(NO_ROWS, PROVED) && IsRun(After(NO_ROWS, PROVED), LOST_ONCE)
    ensures var end := After(After(NO_ROWS, PROVED), LOST_ONCE);
            && |end.calls| == 2 && end.calls[0].key == EPOCH == end.calls[1].key
            && Taken(end.calls[0].answer) && !Taken(end.calls[1].answer)
            && LostCalls(end.calls, EPOCH) != []
            && end.commits == map[EPOCH := FRESH_ROW.(status := Failed)]
  {
    var score := EpochScoreFor(EPOCH, [OUTAGE]);
    assert score.key == EPOCH;
    hide EpochScoreFor, ReviewResolved, SubmitSwept, OldestFirst, ContractAnswers;
    OutageProved();
    var lost, refused := CommitCall(score, EPOCH_DURATION_MS, LOST(0)),
        CommitCall(score, EPOCH_DURATION_MS, REFUSED(0));
    RowSweeps(DECIDED, FRESH_ROW, [], LOST);
    OutageReviewed(FRESH_ROW.(status := Failed), [] + [lost]);
    RowSweeps(REVIEWED, FRESH_ROW, [] + [lost], REFUSED);
    ThreeMore(Proved(FRESH_ROW, []), LOST_ONCE[0], LOST_ONCE[1], LOST_ONCE[2]);
    assert LOST_ONCE == [LOST_ONCE[0], LOST_ONCE[1], LOST_ONCE[2]];
    FirstIsLost(lost, refused);
  }

  lemma FirstIsLost(a: Call, b: Call)
    requires a.key == EPOCH && a.answer == LOST(0)
    ensures LostCalls([] + [a] + [b], EPOCH) != []
  {
    assert a in LostCalls([] + [a] + [b], EPOCH);
  }

  /** And so it stays: whatever follows that run, the row holds no hash and is not confirmed. */
  lemma {:induction false} LostEpochIsNeverConfirmed(steps: seq<Step>)
    requires IsRun(NO_ROWS, PROVED) && IsRun(After(NO_ROWS, PROVED), LOST_ONCE)
    requires IsRun(After(After(NO_ROWS, PROVED), LOST_ONCE), steps)
    ensures var end := After(After(After(NO_ROWS, PROVED), LOST_ONCE), steps);
            HashOf(end.commits, EPOCH).None? && (EPOCH in end.commits ==> end.commits[EPOCH].status != Confirmed)
  {
    hide IsRun, After, Sound;
    StartIsSound();
    RunsAreSound(NO_ROWS, PROVED);
    RunsAreSound(After(NO_ROWS, PROVED), LOST_ONCE);
    LostHashIsRefused();
    LostHashIsForEver(After(After(NO_ROWS, PROVED), LOST_ONCE), steps, EPOCH);
  }

  // ---- A failed transaction: the row is queued again and never submitted again ----

  const REVERTS: string -> Lookup := hash => Found(Some(Receipt(Some(0), 7)))
  const FAILED_ONCE := [
    SubmitSweep([EPOCH], 1, EPOCH_DURATION_MS, TAKEN), IndexSweep([EPOCH], 1, EPOCH_DURATION_MS, REVERTS),
    ReviewRun(OUTAGE, PolicyGate, Approve, "seen", 0)]

  lemma RowFails(row: CommitRow, calls: seq<Call>)
    requires row.status == Pending && row.txHash.Some?
    ensures var db, step := Proved(row, calls), FAILED_ONCE[1];
            Enabled(db, step) && Next(db, step) ==
                Proved(row.(status := Failed, blockNumber := Some(7), confirmedAt := None), calls)
  {
    hide EpochScoreFor;
    var db := Proved(row, calls);
    assert [EPOCH][..1] == [EPOCH];
    assert Indexed(db.commits, [EPOCH], REVERTS, EPOCH_DURATION_MS) ==
           map[EPOCH := row.(status := Failed, blockNumber := Some(7), confirmedAt := None)];
  }

  /** A reachable run: the transaction fails, a review queues the row again, and it still holds the failed hash, so
      that no sweep will submit it. */
  lemma {:induction false} FailedTransactionIsRequeued()
    ensures IsRun(NO_ROWS, PROVED) && IsRun(After(NO_ROWS, PROVED), FAILED_ONCE)
    ensures var end := After(After(NO_ROWS, PROVED), FAILED_ONCE);
            && EPOCH in end.commits && end.commits[EPOCH].status == Pending && end.commits[EPOCH].txHash == Some("hash")
            && |end.calls| == 1
            && forall now :: !Submittable(end.commits, end.scores, now, EPOCH)
  {
    var score := EpochScoreFor(EPOCH, [OUTAGE]);
    hide EpochScoreFor, ReviewResolved, SubmitSwept, IndexSwept, OldestFirst, ContractAnswers;
    OutageProved();
    var call, row := CommitCall(score, EPOCH_DURATION_MS, TAKEN(0)), Stored(FRESH_ROW, "hash");
    RowSweeps(DECIDED, FRESH_ROW, [], TAKEN);
    RowFails(row, [] + [call]);
    OutageReviewed(row.(status := Failed, blockNumber := Some(7), confirmedAt := None), [] + [call]);
    ThreeMore(Proved(FRESH_ROW, []), FAILED_ONCE[0], FAILED_ONCE[1], FAILED_ONCE[2]);
    assert FAILED_ONCE == [FAILED_ONCE[0], FAILED_ONCE[1], FAILED_ONCE[2]];
  }

  // ---- A late approval: the confirmed row attests a score that is no longer stored ----

  const SECOND := Candidate(2, 1, Restored, 9000, 0, 0, [2])
  const CONFIRMS: string -> Lookup := hash => Found(Some(Receipt(Some(1), 7)))
  const LATE_APPROVAL := [
    SubmitSweep([EPOCH], 1, EPOCH_DURATION_MS, TAKEN), AddCandidate(SECOND), ApiRun(SECOND, Live, 0),
    IndexSweep([EPOCH], 1, EPOCH_DURATION_MS, CONFIRMS)]

  lemma HalfUp()
    ensures EpochScoreFor(EPOCH, [OUTAGE, SECOND]).uptimeBps == 5000
    ensures EpochScoreFor(EPOCH, [OUTAGE]).uptimeBps == 0
  {
    hide UptimeBps;
    var up, down := VoteOf(SECOND), VoteOf(OUTAGE);
    assert Votes([OUTAGE, SECOND]) == [down, up] && Votes([OUTAGE]) == [down];
    assert [down, up][1..] == [up] && UpVotes([up]) == 1;
    BpsInUnits(1, 2);
    BpsInUnits(0, 1);
  }

  lemma SecondRuns(db: Db, row: CommitRow)
    requires db.candidates == [OUTAGE, SECOND] && db.decisions == DECIDED
    requires db.commits == map[EPOCH := row] && row.status == Pending
    ensures var step := ApiRun(SECOND, Live, 0);
            && Enabled(db, step)
            && Next(db, step).commits == db.commits && Next(db, step).calls == db.calls
            && EPOCH in Next(db, step).scores && Next(db, step).scores[EPOCH].uptimeBps == 5000
  {
    hide ApiScore, UptimeBps;
    var decided := Upserted(db, 2, PolicyGate, DecisionForCandidate(SECOND));
    SecondRows(decided);
    HalfUp();
    ScoreHasKey(decided, EPOCH);
    assert KeyOf(SECOND) == EPOCH;
    assert db.commits[EPOCH := row] == db.commits;
  }

  lemma SecondRows(db: Db)
    requires db.candidates == [OUTAGE, SECOND]
    requires db.decisions == DECIDED[DecisionKey(2, PolicyGate) := DecisionForCandidate(SECOND)]
    ensures ApiScore(db, EPOCH) == EpochScoreFor(EPOCH, [OUTAGE, SECOND])
  {
    hide EpochScoreFor;
    assert Approvals(db.decisions, 1) == 1 && Approvals(db.decisions, 2) == 1;
    hide Approvals;
    RowsOfAnswer([OUTAGE, SECOND], db, EPOCH);
  }

  lemma RowConfirms(db: Db, row: CommitRow)
    requires db.commits == map[EPOCH := row] && row.status == Pending && row.txHash.Some? && EPOCH in db.scores
    ensures var step := LATE_APPROVAL[3];
            && Enabled(db, step)
            && Next(db, step).scores == db.scores && Next(db, step).calls == db.calls
            && EPOCH in Next(db, step).commits && Next(db, step).commits[EPOCH].status == Confirmed
  {
    hide Indexed;
    assert [EPOCH][..1] == [EPOCH];
    ReceiptDecides(db.commits, [EPOCH], CONFIRMS, EPOCH_DURATION_MS, EPOCH);
    IndexingKeepsKeys(db.commits, [EPOCH], CONFIRMS, EPOCH_DURATION_MS);
  }

  lemma IndexingKeepsKeys(rows: Rows, batch: seq<ScoreKey>, receipts: string -> Lookup, now: Instant)
    ensures Indexed(rows, batch, receipts, now).Keys == rows.Keys
  {
  }

  lemma NotAttested(db: Db, call: Call)
    requires db.calls == [] + [call] && EPOCH in db.scores && call.key == EPOCH && call.answer.Accepted?
    requires call.uptimeBps != db.scores[EPOCH].uptimeBps
    ensures !Attests(db, EPOCH)
  {
    StoredCallIsIt(call);
  }

  lemma StoredCallIsIt(call: Call)
    requires call.key == EPOCH && call.answer.Accepted?
    ensures StoredCalls([] + [call], EPOCH) == [call]
  {
    assert [] + [call] == [call];
  }

  /** The epoch is submitted as all down, a restored reading of it is approved afterwards, and the old receipt
      confirms the row: the chain says 0 basis points and the confirmed score says 5000. */
  lemma {:induction false} LateApprovalConfirmsOldScore()
    ensures IsRun(NO_ROWS, PROVED) && IsRun(After(NO_ROWS, PROVED), LATE_APPROVAL)
    ensures var end := After(After(NO_ROWS, PROVED), LATE_APPROVAL);
            && EPOCH in end.commits && end.commits[EPOCH].status == Confirmed
            && EPOCH in end.scores && end.scores[EPOCH].uptimeBps == 5000
            && |end.calls| == 1 && end.calls[0].uptimeBps == 0 && !Attests(end, EPOCH)
  {
    var score := EpochScoreFor(EPOCH, [OUTAGE]);
    assert score.key == EPOCH;
    hide EpochScoreFor, ApiProcessed, SubmitSwept, IndexSwept, OldestFirst, ContractAnswers, Attests;
    OutageProved();
    HalfUp();
    var call, row := CommitCall(score, EPOCH_DURATION_MS, TAKEN(0)), Stored(FRESH_ROW, "hash");
    RowSweeps(DECIDED, FRESH_ROW, [], TAKEN);
    var sent := Proved(row, [] + [call]);
    var added := sent.(candidates := [OUTAGE, SECOND]);
    assert Next(sent, LATE_APPROVAL[1]) == added;
    SecondRuns(added, row);
    var approved := Next(added, LATE_APPROVAL[2]);
    RowConfirms(approved, row);
    NotAttested(Next(approved, LATE_APPROVAL[3]), call);
    FourMore(Proved(FRESH_ROW, []), LATE_APPROVAL[0], LATE_APPROVAL[1], LATE_APPROVAL[2], LATE_APPROVAL[3]);
    assert LATE_APPROVAL == [LATE_APPROVAL[0], LATE_APPROVAL[1], LATE_APPROVAL[2], LATE_APPROVAL[3]];
  }

  // ---- One reading, two approvals, two votes ----

  const TWO_APPROVALS := [
    AddCandidate(OUTAGE), ApiRun(OUTAGE, Live, 0),
    AddCandidate(RESTORED), ApiRun(RESTORED, Live, 0),
    WorkerRun(RESTORED, Answers(Approve, 0.9), Live, 0),
    ReviewRun(RESTORED, PolicyGate, Approve, "seen", 0)]

  ghost function Both(gate: DecisionRow): DecisionRows {
    DECIDED[DecisionKey(2, PolicyGate) := gate][DecisionKey(2, AiVerifier) := DecisionRow(0.9, Approve, None)]
  }

  /** A candidate approved by the agent worker and by a reviewer votes twice. */
  lemma RestoredTwice(db: Db, gate: DecisionRow)
    requires db.candidates == [OUTAGE, RESTORED] && db.decisions == Both(gate) && gate.verdict == Approve
    ensures CountedTwice(db, EPOCH)
    ensures ApiScore(db, EPOCH).uptimeBps == 6667
  {
    hide UptimeBps;
    assert Approvals(db.decisions, 1) == 1 && Approvals(db.decisions, 2) == 2;
    hide Approvals;
    assert RESTORED in db.candidates && InEpoch(EPOCH, RESTORED);
    TwiceRows(db);
    TwoThirds();
  }

  lemma TwoThirds()
    ensures EpochScoreFor(EPOCH, [OUTAGE, RESTORED, RESTORED]).uptimeBps == 6667
  {
    hide UptimeBps;
    var up, down := VoteOf(RESTORED), VoteOf(OUTAGE);
    assert Votes([OUTAGE, RESTORED, RESTORED]) == [down, up, up];
    assert [down, up, up][1..] == [up, up] && [up, up][1..] == [up];
    assert UpVotes([up]) == 1;
    assert UpVotes([up, up]) == 2;
    BpsInUnits(2, 3);
  }

  lemma TwiceRows(db: Db)
    requires db.candidates == [OUTAGE, RESTORED] && Approvals(db.decisions, 1) == 1 && Approvals(db.decisions, 2) == 2
    ensures JoinRows(db, EPOCH) == [OUTAGE, RESTORED, RESTORED]
  {
    hide Approvals;
    var rows := [OUTAGE, RESTORED, RESTORED];
    RowsOfAnswer(rows, db, EPOCH);
  }

  const GATE := DecisionRow(0.7, Escalate, None)
  const GATE_REVIEWED := DecisionRow(0.7, Approve, Some(Review(Escalate, Approve, "seen")))

  lemma RestoredEscalates(db: Db)
    requires db.candidates == [OUTAGE] && db.decisions == DECIDED
    ensures var added, api := TWO_APPROVALS[2], TWO_APPROVALS[3];
            && Enabled(db, added) && Enabled(Next(db, added), api)
            && Next(Next(db, added), api) == db.(candidates := [OUTAGE, RESTORED],
                decisions := DECIDED[DecisionKey(2, PolicyGate) := GATE])
  {
    assert DecisionForCandidate(RESTORED) == GATE;
    assert [OUTAGE] + [RESTORED] == [OUTAGE, RESTORED];
  }

  lemma RestoredApproved(db: Db)
    requires db.candidates == [OUTAGE, RESTORED] && db.decisions == DECIDED[DecisionKey(2, PolicyGate) := GATE]
    ensures var next := Next(db, TWO_APPROVALS[4]);
            Enabled(db, TWO_APPROVALS[4]) && next.candidates == db.candidates && next.decisions == Both(GATE)
  {
    hide WorkerScore, Requeued;
  }

  lemma RestoredReviewed(db: Db)
    requires db.candidates == [OUTAGE, RESTORED] && db.decisions == Both(GATE)
    ensures var next := Next(db, TWO_APPROVALS[5]);
            && Enabled(db, TWO_APPROVALS[5]) && CountedTwice(next, EPOCH)
            && EPOCH in next.scores && next.scores[EPOCH].uptimeBps == 6667
  {
    hide Requeued, ApiScore, CountedTwice;
    var decided := Upserted(db, 2, PolicyGate, GATE_REVIEWED);
    assert decided.decisions == Both(GATE_REVIEWED);
    RestoredTwice(decided, GATE_REVIEWED);
    assert KeyOf(RESTORED) == EPOCH;
    ScoreHasKey(decided, EPOCH);
    var next := Next(db, TWO_APPROVALS[5]);
    SameCount(decided, next);
  }

  lemma ScoreHasKey(db: Db, key: ScoreKey)
    ensures ApiScore(db, key).key == key
  {
    hide JoinRows, UptimeBps;
  }

  lemma SameCount(a: Db, b: Db)
    requires CountedTwice(a, EPOCH) && a.candidates == b.candidates && a.decisions == b.decisions
    ensures CountedTwice(b, EPOCH)
  {
  }

  /** The run in which that happens: one outage and one restored reading, scored 2 to 1 and not 1 to 1. */
  lemma {:induction false} ReviewAndWorkerCountTwice()
    ensures IsRun(NO_ROWS, TWO_APPROVALS)
    ensures var db := After(NO_ROWS, TWO_APPROVALS);
            CountedTwice(db, EPOCH) && EPOCH in db.scores && db.scores[EPOCH].uptimeBps == 6667
  {
    hide Proved, DECIDED, Next, Enabled, CountedTwice;
    OutageProved();
    var d2 := After(NO_ROWS, PROVED);
    ProvedTables(FRESH_ROW, []);
    RestoredEscalates(d2);
    var d3 := Next(d2, TWO_APPROVALS[2]);
    var d4 := Next(d3, TWO_APPROVALS[3]);
    RestoredApproved(d4);
    var d5 := Next(d4, TWO_APPROVALS[4]);
    RestoredReviewed(d5);
    FourMore(d2, TWO_APPROVALS[2], TWO_APPROVALS[3], TWO_APPROVALS[4], TWO_APPROVALS[5]);
    Appended(NO_ROWS, PROVED, TWO_APPROVALS[2..]);
    assert PROVED + TWO_APPROVALS[2..] == TWO_APPROVALS;
  }

  lemma ProvedTables(commit: CommitRow, calls: seq<Call>)
    ensures Proved(commit, calls).candidates == [OUTAGE] && Proved(commit, calls).decisions == DECIDED
  {
  }

  lemma ThreeMore(db: Db, a: Step, b: Step, c: Step)
    requires Enabled(db, a)
    requires Enabled(Next(db, a), b)
    requires Enabled(Next(Next(db, a), b), c)
    ensures IsRun(db, [a, b, c]) && After(db, [a, b, c]) == Next(Next(Next(db, a), b), c)
  {
    hide Next, Enabled;
    Continues(Next(Next(db, a), b), c, []);
    Continues(Next(db, a), b, [c]);
    Continues(db, a, [b, c]);
    assert [c] + [] == [c] && [b] + [c] == [b, c] && [a] + [b, c] == [a, b, c];
  }

  lemma FourMore(db: Db, a: Step, b: Step, c: Step, d: Step)
    requires Enabled(db, a)
    requires Enabled(Next(db, a), b)
    requires Enabled(Next(Next(db, a), b), c)
    requires Enabled(Next(Next(Next(db, a), b), c), d)
    ensures IsRun(db, [a, b, c, d]) && After(db, [a, b, c, d]) == Next(Next(Next(Next(db, a), b), c), d)
  {
    hide Next, Enabled;
    Continues(Next(Next(Next(db, a), b), c), d, []);
    Continues(Next(Next(db, a), b), c, [d]);
    Continues(Next(db, a), b, [c, d]);
    Continues(db, a, [b, c, d]);
    assert [d] + [] == [d] && [c] + [d] == [c, d] && [b] + [c, d] == [b, c, d] && [a] + [b, c, d] == [a, b, c, d];
  }

  lemma {:induction false} Appended(db: Db, steps: seq<Step>, more: seq<Step>)
    requires IsRun(db, steps) && IsRun(After(db, steps), more)
    ensures IsRun(db, steps + more) && After(db, steps + more) == After(After(db, steps), more)
    decreases |steps|
  {
    hide Next, Enabled;
    if steps == [] {
      assert steps + more == more;
    } else {
      Appended(Next(db, steps[0]), steps[1..], more);
      assert (steps + more)[1..] == steps[1..] + more;
    }
  }
}
