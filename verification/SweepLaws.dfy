/** What one chain sweep does, stated on the rows before and after it. */
module SweepLaws {
  import opened Commitments
  import opened Domain
  import opened Ledger
  import opened LedgerRuns
  import opened Pipeline
  import opened Scores

  /** The row waits for a submission at the given time: pending, without a hash, of an hour that is over. */
  ghost predicate Waits(db: Db, key: ScoreKey, now: Instant) {
    && key in db.commits && key in db.scores
    && db.commits[key].status == Pending && db.commits[key].txHash.None? && key.epochStart + 3600000 <= now
  }

  /** The row waits for a receipt. */
  ghost predicate AwaitsReceipt(db: Db, key: ScoreKey) {
    key in db.commits && key in db.scores && db.commits[key].status == Pending && db.commits[key].txHash.Some?
  }

  /** What a call does to its row: an accepted one stores its hash, a failing one marks it failed if that succeeds. */
  ghost predicate AnswerShows(before: CommitRow, after: CommitRow, answer: ChainAnswer) {
    match answer
    case Accepted(hash) => after == CommitRow(Pending, Some(hash), before.blockNumber, before.confirmedAt,
        before.createdAt)
    case Throws(_, marked) =>
      after == if marked then CommitRow(Failed, before.txHash, before.blockNumber, before.confirmedAt, before.createdAt)
               else before
  }

  ghost predicate CallFits(db: Db, next: Db, call: Call, now: Instant) {
    && Waits(db, call.key, now) && call.key in next.commits
    && call.uptimeBps == db.scores[call.key].uptimeBps && call.hashed == db.scores[call.key].hashed && call.at == now
    && AnswerShows(db.commits[call.key], next.commits[call.key], call.answer)
  }

  lemma CallOfBatchFits(db: Db, batch: seq<ScoreKey>, now: Instant, answers: nat -> ChainAnswer, j: nat)
    requires ScoresSound(db.candidates, db.scores) && AllSubmittable(db.commits, db.scores, now, batch)
    requires j < |Submitted(db.commits, db.scores, batch, |batch|, now, answers).calls|
    ensures var call := Submitted(db.commits, db.scores, batch, |batch|, now, answers).calls[j];
            call.key == batch[j] && call.answer == answers(j) &&
                CallFits(db, SubmitSwept(db, batch, now, answers), call, now)
  {
    hide Submitted, SoundScore;
    CallsFollowBatch(db.commits, db.scores, batch, |batch|, now, answers);
    assert batch[j] in batch;
    RowAfterSweep(db.commits, db.scores, batch, |batch|, now, answers, batch[j]);
  }

  lemma NewCallsFit(db: Db, batch: seq<ScoreKey>, now: Instant, answers: nat -> ChainAnswer, i: nat)
    requires ScoresSound(db.candidates, db.scores) && AllSubmittable(db.commits, db.scores, now, batch)
    requires |db.calls| <= i < |SubmitSwept(db, batch, now, answers).calls|
    ensures var next, j := SubmitSwept(db, batch, now, answers), i - |db.calls|;
            && j < |batch| && next.calls[i].key == batch[j] && next.calls[i].answer == answers(j)
            && CallFits(db, next, next.calls[i], now)
  {
    hide Submitted, SoundScore, Submittable, CallFits, CommitCall;
    CallsFollowBatch(db.commits, db.scores, batch, |batch|, now, answers);
    CallOfBatchFits(db, batch, now, answers, i - |db.calls|);
  }

  lemma ChangedWasCalled(db: Db, batch: seq<ScoreKey>, now: Instant, answers: nat -> ChainAnswer, key: ScoreKey)
    requires ScoresSound(db.candidates, db.scores) && AllSubmittable(db.commits, db.scores, now, batch)
    requires key in db.commits
    ensures var next := SubmitSwept(db, batch, now, answers);
            && key in next.commits
            && (next.commits[key] != db.commits[key] ==>
                  exists i :: |db.calls| <= i < |next.calls| && next.calls[i].key == key)
  {
    hide Submitted, SoundScore, CallFits, CommitCall, Submittable;
    var next := SubmitSwept(db, batch, now, answers);
    RowAfterSweep(db.commits, db.scores, batch, |batch|, now, answers, key);
    var made := Submitted(db.commits, db.scores, batch, |batch|, now, answers).calls;
    if next.commits[key] != db.commits[key] {
      var j :| 0 <= j < |made| && batch[j] == key;
      NewCallsFit(db, batch, now, answers, |db.calls| + j);
    }
  }

  /** A submission sweep makes at most `limit` calls, each for a row that waits, with the score that is stored, and each
      row changes by its own call alone. */
  lemma {:induction false} SubmitSweepLaw(db: Db, batch: seq<ScoreKey>, limit: nat, now: Instant,
      answers: nat -> ChainAnswer)
    requires Sound(db) && Enabled(db, SubmitSweep(batch, limit, now, answers))
    ensures var next := Next(db, SubmitSweep(batch, limit, now, answers));
            && next.(commits := db.commits, calls := db.calls) == db
            && db.calls <= next.calls && |next.calls| - |db.calls| <= limit
            && (forall i :: |db.calls| <= i < |next.calls| ==> CallFits(db, next, next.calls[i], now))
            && forall key :: key in db.commits && (key !in next.commits || next.commits[key] != db.commits[key]) ==>
                 exists i :: |db.calls| <= i < |next.calls| && next.calls[i].key == key
  {
    hide OldestFirst, ContractAnswers, Submitted, CallFits, AllWarranted, CallsSound, CommitsSound, LogSound, Exclusive,
        ScoresSound, AllSubmittable, DistinctCandidates;
    BatchIsSubmittable(db, batch, limit, now);
    BatchWithinLimit(db, batch, limit, now, answers);
    var next := SubmitSwept(db, batch, now, answers);
    forall i | |db.calls| <= i < |next.calls|
      ensures i - |db.calls| < |batch| && CallFits(db, next, next.calls[i], now)
    {
      NewCallsFit(db, batch, now, answers, i);
    }
    forall key | key in db.commits
      ensures key !in next.commits || next.commits[key] != db.commits[key] ==>
                exists i :: |db.calls| <= i < |next.calls| && next.calls[i].key == key
    {
      ChangedWasCalled(db, batch, now, answers, key);
    }
  }

  lemma BatchWithinLimit(db: Db, batch: seq<ScoreKey>, limit: nat, now: Instant, answers: nat -> ChainAnswer)
    requires Enabled(db, SubmitSweep(batch, limit, now, answers))
    ensures |batch| <= limit
  {
  }

  /** It takes the oldest: a row that waits is passed over only if the sweep throws, or makes all its `limit` calls on
      rows that are no younger. */
  lemma {:induction false} OldestAreSubmitted(db: Db, batch: seq<ScoreKey>, limit: nat, now: Instant,
      answers: nat -> ChainAnswer, key: ScoreKey)
    requires Sound(db) && Enabled(db, SubmitSweep(batch, limit, now, answers)) && Waits(db, key, now)
    ensures var next := Next(db, SubmitSweep(batch, limit, now, answers));
            || (exists i :: |db.calls| <= i < |next.calls| && next.calls[i].key == key)
            || (exists i :: |db.calls| <= i < |next.calls| && next.calls[i].answer.Throws?)
            || (&& |next.calls| - |db.calls| == limit
                && forall i :: |db.calls| <= i < |next.calls| ==>
                     next.calls[i].key in db.commits &&
                         db.commits[next.calls[i].key].createdAt <= db.commits[key].createdAt)
  {
    hide OldestFirst, ContractAnswers, Submitted, CallFits, AllWarranted, CallsSound, CommitsSound, LogSound, Exclusive,
        ScoresSound, AllSubmittable, DistinctCandidates, Waits;
    BatchIsSubmittable(db, batch, limit, now);
    PassedOver(db, batch, limit, now, key, answers);
    WholeBatchOrThrow(db, batch, now, answers);
    var next := SubmitSwept(db, batch, now, answers);
    forall i | |db.calls| <= i < |next.calls|
      ensures i - |db.calls| < |batch| && next.calls[i].key == batch[i - |db.calls|] && next.calls[i].key in batch
    {
      NewCallsFit(db, batch, now, answers, i);
    }
    if key in batch && |next.calls| == |db.calls| + |batch| {
      var j :| 0 <= j < |batch| && batch[j] == key;
      assert next.calls[|db.calls| + j].key == key;
    }
  }

  lemma WholeBatchOrThrow(db: Db, batch: seq<ScoreKey>, now: Instant, answers: nat -> ChainAnswer)
    requires ScoresSound(db.candidates, db.scores) && AllSubmittable(db.commits, db.scores, now, batch)
    ensures var next := SubmitSwept(db, batch, now, answers);
            || |next.calls| == |db.calls| + |batch|
            || exists i :: |db.calls| <= i < |next.calls| && next.calls[i].answer.Throws?
  {
    hide Submitted, SoundScore, Submittable, CallFits, CommitCall;
    CallsFollowBatch(db.commits, db.scores, batch, |batch|, now, answers);
    var done := Submitted(db.commits, db.scores, batch, |batch|, now, answers);
    if done.failed {
      NewCallsFit(db, batch, now, answers, |db.calls| + |done.hashes|);
      assert SubmitSwept(db, batch, now, answers).calls[|db.calls| + |done.hashes|].answer.Throws?;
    }
  }

  lemma PassedOver(db: Db, batch: seq<ScoreKey>, limit: nat, now: Instant, key: ScoreKey, answers: nat -> ChainAnswer)
    requires Enabled(db, SubmitSweep(batch, limit, now, answers)) && Waits(db, key, now)
    ensures key !in batch ==>
              |batch| == limit && forall b :: b in batch ==>
                  b in db.commits && db.commits[b].createdAt <= db.commits[key].createdAt
  {
    assert Submittable(db.commits, db.scores, now, key);
  }

  /** A confirmation sweep touches at most `limit` rows, all of which await a receipt, and nothing else. */
  lemma {:induction false} IndexSweepLaw(db: Db, batch: seq<ScoreKey>, limit: nat, now: Instant,
      lookups: string -> Lookup)
    requires Enabled(db, IndexSweep(batch, limit, now, lookups))
    ensures var next := Next(db, IndexSweep(batch, limit, now, lookups));
            && next.(commits := db.commits) == db && |batch| <= limit && next.commits.Keys == db.commits.Keys
            && forall key :: key in db.commits && next.commits[key] != db.commits[key] ==>
                 key in batch && AwaitsReceipt(db, key) && lookups(db.commits[key].txHash.value).Found?
  {
    BatchIsIndexable(db, batch, limit);
    var n := Reached(db.commits, batch, lookups);
    hide Reached;
    forall key | key in batch[..n]
      ensures key in batch && LookedUp(db.commits[key], lookups).Found?
    {
      var j :| 0 <= j < n && batch[j] == key;
    }
  }
}
