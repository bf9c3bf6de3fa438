/** What the chain's receipts decide over whole runs: which rows can ever be confirmed. */
module Receipts {
  import opened Collections
  import opened Commitments
  import opened Domain
  import opened Ledger
  import opened LedgerRuns
  import opened Pipeline
  import opened Scores

  /** A transaction has one receipt, if any. A lookup may break or come too early, but it finds no other. */
  ghost predicate Tells(receipts: string -> Option<Receipt>, step: Step) {
    step.IndexSweep? ==>
      forall hash :: step.receipts(hash).Found? && step.receipts(hash).receipt.Some?
                     && step.receipts(hash).receipt.value.status.Some? ==>
        receipts(hash) == step.receipts(hash).receipt
  }

  ghost predicate TellsAll(receipts: string -> Option<Receipt>, steps: seq<Step>) {
    forall i :: 0 <= i < |steps| ==> Tells(receipts, steps[i])
  }

  predicate Succeeds(receipt: Option<Receipt>) {
    receipt.Some? && receipt.value.status == Some(1)
  }

  /** A confirmed row repeats the receipt of its own transaction, and that receipt has status 1. */
  ghost predicate Backed(receipts: string -> Option<Receipt>, row: CommitRow) {
    row.status == Confirmed ==>
      && row.txHash.Some? && Succeeds(receipts(row.txHash.value))
      && row.blockNumber == Some(receipts(row.txHash.value).value.blockNumber)
  }

  ghost predicate AllBacked(receipts: string -> Option<Receipt>, commits: Rows) {
    forall key :: key in commits ==> Backed(receipts, commits[key])
  }

  lemma QueueKeepsBacked(receipts: string -> Option<Receipt>, db: Db, score: EpochScore, now: Instant)
    requires AllBacked(receipts, db.commits)
    ensures AllBacked(receipts, Queued(db, score, now).commits)
  {
  }

  lemma SubmitKeepsBacked(receipts: string -> Option<Receipt>, db: Db, batch: seq<ScoreKey>, now: Instant,
      answers: nat -> ChainAnswer)
    requires AllBacked(receipts, db.commits) && AllSubmittable(db.commits, db.scores, now, batch)
    ensures AllBacked(receipts, SubmitSwept(db, batch, now, answers).commits)
  {
    hide Submitted, Backed;
    SweepKeepsKeys(db, batch, now, answers);
    var done := Submitted(db.commits, db.scores, batch, |batch|, now, answers);
    forall key | key in done.rows
      ensures Backed(receipts, done.rows[key])
    {
      RowAfterSweep(db.commits, db.scores, batch, |batch|, now, answers, key);
      SubmittedRowIsBacked(receipts, db, batch, |done.calls|, now, answers, key, done.rows[key]);
    }
  }

  lemma SubmittedRowIsBacked(receipts: string -> Option<Receipt>, db: Db, batch: seq<ScoreKey>, called: nat,
      now: Instant, answers: nat -> ChainAnswer, key: ScoreKey, row: CommitRow)
    requires AllSubmittable(db.commits, db.scores, now, batch) && key in db.commits && called <= |batch|
    requires RowSettled(row, db.commits[key], batch, called, answers, key) && Backed(receipts, db.commits[key])
    ensures Backed(receipts, row)
  {
    if key in batch[..called] {
      var j :| 0 <= j < called && batch[j] == key;
      assert key in batch;
    }
  }

  lemma IndexKeepsBacked(receipts: string -> Option<Receipt>, db: Db, batch: seq<ScoreKey>, limit: nat, now: Instant,
      lookups: string -> Lookup)
    requires forall k :: k in batch ==> k in db.commits && Indexable(db.commits, db.scores, k)
    requires AllBacked(receipts, db.commits) && Tells(receipts, IndexSweep(batch, limit, now, lookups))
    ensures AllBacked(receipts, IndexSwept(db, batch, lookups, now).commits)
  {
    hide Reached;
  }

  lemma {:induction false} StepKeepsBacked(receipts: string -> Option<Receipt>, db: Db, step: Step)
    requires Enabled(db, step) && AllBacked(receipts, db.commits) && Tells(receipts, step)
    ensures AllBacked(receipts, Next(db, step).commits)
  {
    hide AllBacked, Tells, Queued, SubmitSwept, IndexSwept, ApiScore, WorkerScore, DecisionForCandidate,
        AgentDecisionFromResult, OrchestrateCandidateReview, OldestFirst, Submittable, Indexable, AllSubmittable;
    match step
    case AddCandidate(c) =>
    case ApiRun(c, mode, now) =>
      var decided := Upserted(db, c.id, PolicyGate, DecisionForCandidate(c));
      QueueKeepsBacked(receipts, decided, ApiScore(decided, KeyOf(c)), now);
    case WorkerRun(c, answer, mode, now) =>
      var decided := Upserted(db, c.id, AiVerifier, AgentDecisionFromResult(c, OrchestrateCandidateReview(answer)));
      QueueKeepsBacked(receipts, decided, WorkerScore(decided, c), now);
    case ReviewRun(c, agent, verdict, note, now) =>
      var key := DecisionKey(c.id, agent);
      if key in db.decisions {
        var decided := Upserted(db, c.id, agent, ReviewedRow(db.decisions[key], verdict, note));
        QueueKeepsBacked(receipts, decided, ApiScore(decided, KeyOf(c)), now);
      }
    case SubmitSweep(batch, limit, now, answers) =>
      BatchIsSubmittable(db, batch, limit, now);
      SubmitKeepsBacked(receipts, db, batch, now, answers);
    case IndexSweep(batch, limit, now, lookups) =>
      BatchIsIndexable(db, batch, limit);
      IndexKeepsBacked(receipts, db, batch, limit, now, lookups);
  }

  lemma {:induction false} RunsKeepBacked(receipts: string -> Option<Receipt>, db: Db, steps: seq<Step>)
    requires IsRun(db, steps) && AllBacked(receipts, db.commits) && TellsAll(receipts, steps)
    ensures AllBacked(receipts, After(db, steps).commits)
    decreases |steps|
  {
    hide Enabled, Next, AllBacked, Tells;
    if steps != [] {
      StepKeepsBacked(receipts, db, steps[0]);
      RunsKeepBacked(receipts, Next(db, steps[0]), steps[1..]);
    }
  }

  /** In every run, a row is confirmed only if the transaction it names succeeded, and it holds that transaction's
      block. */
  lemma {:induction false} ConfirmedOnlyBySuccess(receipts: string -> Option<Receipt>, steps: seq<Step>, key: ScoreKey)
    requires IsRun(NO_ROWS, steps) && TellsAll(receipts, steps)
    requires key in After(NO_ROWS, steps).commits && After(NO_ROWS, steps).commits[key].status == Confirmed
    ensures var row := After(NO_ROWS, steps).commits[key];
            && row.txHash.Some? && Succeeds(receipts(row.txHash.value))
            && row.blockNumber == Some(receipts(row.txHash.value).value.blockNumber)
  {
    hide IsRun, After, TellsAll;
    RunsKeepBacked(receipts, NO_ROWS, steps);
  }

  /** A failed transaction is final: once a row names one, then through re-queues, reviews and sweeps it is never
      confirmed, and commitEpoch is never called for its epoch again. */
  lemma {:induction false} FailedTransactionIsFinal(receipts: string -> Option<Receipt>, db: Db, steps: seq<Step>,
      key: ScoreKey)
    requires Sound(db) && AllBacked(receipts, db.commits) && IsRun(db, steps) && TellsAll(receipts, steps)
    requires HashOf(db.commits, key).Some? && !Succeeds(receipts(HashOf(db.commits, key).value))
    ensures var end := After(db, steps);
            && HashOf(end.commits, key) == HashOf(db.commits, key)
            && key in end.commits && end.commits[key].status != Confirmed
            && CallsFor(end.calls, key) == CallsFor(db.calls, key)
  {
    hide IsRun, After, TellsAll, Sound, Succeeds;
    RunsKeepBacked(receipts, db, steps);
    HashIsForEver(db, steps, key);
    assert Backed(receipts, After(db, steps).commits[key]);
  }

  // ---- What the contract holds ----

  /** The call put its epoch on the chain: its transaction succeeded, whether or not its hash was stored. */
  predicate OnChain(receipts: string -> Option<Receipt>, call: Call) {
    match call.answer
    case Accepted(hash) => Succeeds(receipts(hash))
    case Throws(taken, _) => taken
  }

  function CommittedCalls(receipts: string -> Option<Receipt>, calls: seq<Call>, key: ScoreKey): seq<Call> {
    Filter(calls, (call: Call) => call.key == key && OnChain(receipts, call))
  }

  lemma {:induction false} CommittedWereTaken(receipts: string -> Option<Receipt>, calls: seq<Call>, key: ScoreKey)
    ensures |CommittedCalls(receipts, calls, key)| <= |TakenCalls(calls, key)|
  {
    if calls != [] {
      CommittedWereTaken(receipts, calls[1..], key);
    }
  }

  lemma CommittedIff(receipts: string -> Option<Receipt>, db: Db, key: ScoreKey)
    requires LogAgrees(db.commits, db.calls, key)
    ensures CommittedCalls(receipts, db.calls, key) != [] <==>
              || LostCalls(db.calls, key) != []
              || (HashOf(db.commits, key).Some? && Succeeds(receipts(HashOf(db.commits, key).value)))
  {
    var committed, lost, stored :=
      CommittedCalls(receipts, db.calls, key), LostCalls(db.calls, key), StoredCalls(db.calls, key);
    assert lost == [] || lost[0] in lost;
    assert lost != [] ==> lost[0] in committed;
    assert stored == [] || stored[0] in stored;
    assert HashOf(db.commits, key).Some? && Succeeds(receipts(HashOf(db.commits, key).value)) ==>
        stored[0] in committed;
    if committed != [] {
      var call := committed[0];
      assert call in committed;
      assert call.answer.Throws? ==> call in lost;
      assert call.answer.Accepted? ==> call in stored;
    }
  }

  /** What is on the chain, exactly: in every run an epoch is committed at most once, and it is committed if and only if
      the transaction that its row names succeeded or a hash was lost. */
  lemma {:induction false} CommittedAtMostOnce(receipts: string -> Option<Receipt>, steps: seq<Step>, key: ScoreKey)
    requires IsRun(NO_ROWS, steps)
    ensures var db := After(NO_ROWS, steps);
            && |CommittedCalls(receipts, db.calls, key)| <= 1
            && (CommittedCalls(receipts, db.calls, key) != [] <==>
                  || LostCalls(db.calls, key) != []
                  || (HashOf(db.commits, key).Some? && Succeeds(receipts(HashOf(db.commits, key).value))))
  {
    hide IsRun, After, CommittedCalls, TakenCalls, LostCalls, HashOf, Succeeds;
    StartIsSound();
    RunsAreSound(NO_ROWS, steps);
    var db := After(NO_ROWS, steps);
    TakenCount(db, key);
    CommittedWereTaken(receipts, db.calls, key);
    assert LogAgrees(db.commits, db.calls, key);
    CommittedIff(receipts, db, key);
  }
}
