/** What a hash in a commitment row attests: the score that was sent, which the score row may since have left behind. */
module Attestation {
  import opened Collections
  import opened Commitments
  import opened Domain
  import opened Ledger
  import opened LedgerRuns
  import opened Scores

  function SentScore(call: Call): EpochScore {
    EpochScore(call.key, call.uptimeBps, call.hashed)
  }

  /** The call behind the row's hash carried the score that is stored now. */
  predicate Attests(db: Db, key: ScoreKey) {
    key in db.scores && StoredCalls(db.calls, key) != [] && SentScore(StoredCalls(db.calls, key)[0]) == db.scores[key]
  }

  lemma StoredCallIsACall(calls: seq<Call>, key: ScoreKey)
    requires StoredCalls(calls, key) != []
    ensures var call := StoredCalls(calls, key)[0]; call in calls && call.key == key && call.answer.Accepted?
  {
    assert StoredCalls(calls, key)[0] in StoredCalls(calls, key);
  }

  lemma OnlyStoredCall(commits: Rows, calls: seq<Call>, key: ScoreKey)
    requires LogSound(commits, calls)
    ensures HashOf(commits, key).Some? ==> |StoredCalls(calls, key)| == 1
    ensures HashOf(commits, key).None? ==> StoredCalls(calls, key) == []
  {
    hide StoredCalls;
    assert LogAgrees(commits, calls, key);
  }

  /** The sweep that stores a hash sent the score that is stored. */
  lemma {:induction false} SweepSendsStoredScore(db: Db, batch: seq<ScoreKey>, now: Instant,
      answers: nat -> ChainAnswer, key: ScoreKey)
    requires AllSubmittable(db.commits, db.scores, now, batch) && ContractAnswers(db.calls, batch, answers)
    requires Sound(db) && HashOf(db.commits, key).None? &&
        HashOf(SubmitSwept(db, batch, now, answers).commits, key).Some?
    ensures Attests(SubmitSwept(db, batch, now, answers), key)
  {
    hide Submitted, Submittable, ContractAnswers, SoundScore, AllWarranted, CallsSound, Exclusive, LogSound,
        StoredCalls;
    var next := SubmitSwept(db, batch, now, answers);
    SubmitKeepsSound(db, batch, now, answers);
    OnlyStoredCall(db.commits, db.calls, key);
    OnlyStoredCall(next.commits, next.calls, key);
    StoredCallIsACall(next.calls, key);
    var call := StoredCalls(next.calls, key)[0];
    var made := Submitted(db.commits, db.scores, batch, |batch|, now, answers).calls;
    if call in db.calls {
      NotStored(db.calls, key, call);
    }
    var j :| 0 <= j < |made| && made[j] == call;
    CallsFollowBatch(db.commits, db.scores, batch, |batch|, now, answers);
    assert batch[j] in batch;
  }

  lemma NotStored(calls: seq<Call>, key: ScoreKey, call: Call)
    requires StoredCalls(calls, key) == [] && call.key == key && call.answer.Accepted?
    ensures call !in calls
  {
    assert call in calls ==> call in StoredCalls(calls, key);
  }

  lemma StoredCallStays(calls: seq<Call>, later: seq<Call>, key: ScoreKey)
    requires calls <= later && |StoredCalls(calls, key)| == 1 == |StoredCalls(later, key)|
    ensures StoredCalls(later, key) == StoredCalls(calls, key)
  {
    FilterConcat(calls, later[|calls|..], (call: Call) => call.key == key && call.answer.Accepted?);
    assert later == calls + later[|calls|..];
  }

  /** From the sweep that stores a hash on, whatever runs: the hash attests the stored score exactly while that score
      is the one the sweep found. */
  lemma {:induction false} AttestsWhileUnchanged(db: Db, sweep: Step, steps: seq<Step>, key: ScoreKey)
    requires Sound(db) && sweep.SubmitSweep? && Enabled(db, sweep) && HashOf(db.commits, key).None?
    requires HashOf(Next(db, sweep).commits, key).Some? && IsRun(Next(db, sweep), steps)
    ensures var end := After(Next(db, sweep), steps);
            key in db.scores && key in end.scores && (Attests(end, key) <==> end.scores[key] == db.scores[key])
  {
    hide IsRun, After, OldestFirst, AllSubmittable, Submittable, AllWarranted, CallsSound, Exclusive, LogSound,
        SubmitSwept, StoredCalls;
    var next := Next(db, sweep);
    BatchIsSubmittable(db, sweep.batch, sweep.limit, sweep.now);
    SweepSendsStoredScore(db, sweep.batch, sweep.now, sweep.answers, key);
    SweepKeepsScores(db, sweep);
    StepKeepsSound(db, sweep);
    HashIsForEver(next, steps, key);
    RunsAreSound(next, steps);
    CallsStay(next, steps);
    OnlyStoredCall(next.commits, next.calls, key);
    OnlyStoredCall(After(next, steps).commits, After(next, steps).calls, key);
    StoredCallStays(next.calls, After(next, steps).calls, key);
  }

  lemma SweepKeepsScores(db: Db, sweep: Step)
    requires sweep.SubmitSweep? && Enabled(db, sweep)
    ensures Next(db, sweep).scores == db.scores
  {
    hide OldestFirst, Submitted, Submittable;
  }

  lemma SentVotesMakeTheScore(candidates: seq<Candidate>, call: Call)
    requires Admissible(candidates, call)
    ensures var votes := call.hashed.votes;
            && call.uptimeBps == UptimeBps(UpVotes(votes), |votes|)
            && call.hashed == HashInput(call.key.zoneId, call.key.epochStart, votes)
  {
    hide UptimeBps, InEpoch;
    var rows :| Built(candidates, SentScore(call), rows);
  }

  /** What a re-queue does to it: the hash goes on attesting the score exactly when the votes of the join, at that
      moment, are the votes that were sent. The hash itself stays, so nothing sends the new score. */
  lemma {:induction false} RequeueAttestsIffSameVotes(db: Db, key: ScoreKey, now: Instant)
    requires Sound(db) && HashOf(db.commits, key).Some?
    ensures var next := Queued(db, ApiScore(db, key), now);
            && HashOf(next.commits, key) == HashOf(db.commits, key)
            && StoredCalls(db.calls, key) != []
            && (Attests(next, key) <==> Votes(JoinRows(db, key)) == StoredCalls(db.calls, key)[0].hashed.votes)
  {
    hide UptimeBps, JoinRows, AllWarranted, ScoresSound, CommitsSound, LogSound, Exclusive, StoredCalls, Admissible,
        DistinctCandidates;
    OnlyStoredCall(db.commits, db.calls, key);
    StoredCallIsACall(db.calls, key);
    var call := StoredCalls(db.calls, key)[0];
    var i :| 0 <= i < |db.calls| && db.calls[i] == call;
    SentVotesMakeTheScore(db.candidates, call);
  }
}
