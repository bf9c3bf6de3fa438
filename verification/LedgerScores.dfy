/** What each step does to the score and commitment rows, and which approvals have a score, and when. */
module LedgerScores {
  import opened Commitments
  import opened Domain
  import opened Ledger
  import opened LedgerRuns
  import opened Pipeline
  import opened Scores

  // ---- One step, stated on the tables ----

  ghost predicate Decides(step: Step) {
    step.ApiRun? || step.WorkerRun? || step.ReviewRun?
  }

  /** The step approves its candidate and is no preview. */
  ghost predicate Queues(db: Db, step: Step) {
    match step
    case ApiRun(c, mode, _) => c.confidence >= 8500 && mode != Simulated(false)
    case WorkerRun(_, answer, mode, _) =>
      answer.Answers? && answer.verdict == Approve && answer.finalConfidence >= 0.85 && mode != Simulated(false)
    case ReviewRun(c, agent, verdict, _, _) => DecisionKey(c.id, agent) in db.decisions && verdict == Approve
    case _ => false
  }

  function AgentOf(step: Step): Agent {
    match step
    case WorkerRun(_, _, _, _) => AiVerifier
    case ReviewRun(_, agent, _, _, _) => agent
    case _ => PolicyGate
  }

  /** The score rows of one key: the score of the rows that answer the query now, in which the candidate votes. */
  ghost predicate ScoredNow(next: Db, key: ScoreKey, c: Candidate) {
    && key in next.scores
    && exists rows :: AnswersQuery(rows, next, key) && c in rows && next.scores[key] == EpochScoreFor(key, rows)
  }

  /** The commitment row is pending; if it was there before, all else in it stays, its hash above all. */
  ghost predicate PendingNow(next: Db, before: Rows, key: ScoreKey, now: Instant) {
    && key in next.commits && next.commits[key].status == Pending
    && if key in before then
         && next.commits[key].txHash == before[key].txHash && next.commits[key].blockNumber == before[key].blockNumber
         && next.commits[key].confirmedAt == before[key].confirmedAt &&
             next.commits[key].createdAt == before[key].createdAt
       else next.commits[key] == CommitRow(Pending, None, None, None, now)
  }

  ghost predicate OthersStay(db: Db, next: Db, key: ScoreKey) {
    forall k :: k != key ==>
      && (k in next.scores <==> k in db.scores) && (k in db.scores ==> next.scores[k] == db.scores[k])
      && (k in next.commits <==> k in db.commits) && (k in db.commits ==> next.commits[k] == db.commits[k])
  }

  lemma QueueingLaw(db: Db, decided: Db, c: Candidate, now: Instant)
    requires DistinctCandidates(db.candidates) && c in db.candidates
    requires decided == db.(decisions := decided.decisions) && Approvals(decided.decisions, c.id) > 0
    ensures var next := Queued(decided, ApiScore(decided, KeyOf(c)), now);
            ScoredNow(next, KeyOf(c), c) && PendingNow(next, db.commits, KeyOf(c), now) &&
                OthersStay(db, next, KeyOf(c))
  {
    hide Approvals, UptimeBps, AnswersQuery, JoinRows, KeyOf;
    var key := KeyOf(c);
    var next := Queued(decided, ApiScore(decided, key), now);
    var rows := JoinRows(decided, key);
    OwnEpochIsNeverEmpty(decided, c);
    JoinAnswersQuery(decided, key);
    SameQuery(decided, next, key, rows);
    assert ApiScore(decided, key) == EpochScoreFor(key, rows);
  }

  lemma SameQuery(a: Db, b: Db, key: ScoreKey, rows: seq<Candidate>)
    requires a.candidates == b.candidates && a.decisions == b.decisions && AnswersQuery(rows, a, key)
    ensures AnswersQuery(rows, b, key)
  {
    hide Approvals, InEpoch;
  }

  /** After an approving step that is no preview, the candidate's zone and epoch has the score of the rows that answer
      the query, its commitment row is pending under its old hash, and no other row changes. */
  lemma {:induction false} ApprovalIsQueued(db: Db, step: Step)
    requires DistinctCandidates(db.candidates) && Enabled(db, step) && Queues(db, step)
    ensures var next, key := Next(db, step), KeyOf(step.c);
            ScoredNow(next, key, step.c) && PendingNow(next, db.commits, key, step.now) && OthersStay(db, next, key)
  {
    hide ApiScore, WorkerScore, Approvals, ScoredNow, PendingNow, OthersStay, DistinctCandidates, Queued, KeyOf;
    var c := step.c;
    match step
    case ApiRun(_, _, now) =>
      ApprovedOnce(db, c.id, PolicyGate, DecisionForCandidate(c));
      QueueingLaw(db, Upserted(db, c.id, PolicyGate, DecisionForCandidate(c)), c, now);
    case WorkerRun(_, answer, _, now) =>
      var row := AgentDecisionFromResult(c, OrchestrateCandidateReview(answer));
      ApprovedOnce(db, c.id, AiVerifier, row);
      OwnEpochIsNeverEmpty(Upserted(db, c.id, AiVerifier, row), c);
      QueueingLaw(db, Upserted(db, c.id, AiVerifier, row), c, now);
    case ReviewRun(_, agent, verdict, note, now) =>
      var row := ReviewedRow(db.decisions[DecisionKey(c.id, agent)], verdict, note);
      ApprovedOnce(db, c.id, agent, row);
      QueueingLaw(db, Upserted(db, c.id, agent, row), c, now);
  }

  /** Every other step leaves the scores alone, and every other one but a sweep the commitment rows. */
  lemma {:induction false} NothingElseIsQueued(db: Db, step: Step)
    requires Enabled(db, step) && !Queues(db, step)
    ensures Next(db, step).scores == db.scores
    ensures !step.SubmitSweep? && !step.IndexSweep? ==> Next(db, step).commits == db.commits
  {
    hide ApiScore, WorkerScore, Queued, OldestFirst, Submitted, Indexed, Reached, ContractAnswers;
  }

  /** What a deciding step writes: one row, under the candidate and its agent. */
  ghost predicate Writes(db: Db, step: Step, row: DecisionRow)
    requires Decides(step)
  {
    match step
    case ApiRun(c, _, _) =>
      && row.confidence == c.confidence as real / 10000.0 && row.review.None?
      && row.verdict == if c.confidence >= 8500 then Approve else if c.confidence >= 5000 then Escalate else Reject
    case WorkerRun(c, answer, _, _) =>
      if answer.Fails? || (answer.verdict == Approve && answer.finalConfidence < 0.85)
      then row == DecisionRow(c.confidence as real / 10000.0, Escalate, None)
      else row == DecisionRow(answer.finalConfidence, answer.verdict, None)
    case ReviewRun(c, agent, verdict, note, _) =>
      DecisionKey(c.id, agent) in db.decisions &&
      var earlier := db.decisions[DecisionKey(c.id, agent)];
      row == DecisionRow(earlier.confidence, verdict, Some(Review(earlier.verdict, verdict, note)))
  }

  /** A review of a decision that does not exist changes nothing; any other deciding step writes its one row. */
  lemma {:induction false} StepWritesOneRow(db: Db, step: Step)
    requires Enabled(db, step) && Decides(step)
    ensures var next, key := Next(db, step), DecisionKey(step.c.id, AgentOf(step));
            && next.candidates == db.candidates && next.calls == db.calls
            && if step.ReviewRun? && key !in db.decisions then next == db
               else
                 && key in next.decisions && Writes(db, step, next.decisions[key])
                 && forall k :: k != key ==>
                      (k in next.decisions <==> k in db.decisions) &&
                          (k in db.decisions ==> next.decisions[k] == db.decisions[k])
  {
    hide ApiScore, WorkerScore, Requeued;
  }

  // ---- Which approvals have a score ----

  /** There is a score exactly where something is approved, and it is the score of what is approved. */
  ghost predicate Fresh(db: Db, key: ScoreKey) {
    && (key in db.scores <==> JoinRows(db, key) != [])
    && (key in db.scores ==> db.scores[key] == ApiScore(db, key))
  }

  ghost predicate AllFresh(db: Db) {
    forall key :: Aligned(key) ==> Fresh(db, key)
  }

  /** Decisions are made on stored candidates. */
  ghost predicate Known(db: Db, id: Id) {
    exists c :: c in db.candidates && c.id == id
  }

  ghost predicate AllKnown(db: Db) {
    forall k :: k in db.decisions ==> Known(db, k.candidateId)
  }

  /** The step writes the scores, or it leaves the approval of its candidate by its agent as it was. */
  ghost predicate Proper(db: Db, step: Step)
    requires Enabled(db, step)
  {
    Decides(step) && !Queues(db, step) ==>
      (Approves(Next(db, step).decisions, step.c.id, AgentOf(step)) <==>
          Approves(db.decisions, step.c.id, AgentOf(step)))
  }

  ghost predicate SameVotes(a: Db, b: Db, key: ScoreKey) {
    forall c :: (c in a.candidates && InEpoch(key, c) && Approvals(a.decisions, c.id) > 0) ||
                (c in b.candidates && InEpoch(key, c) && Approvals(b.decisions, c.id) > 0) ==>
      c in a.candidates && c in b.candidates && Approvals(a.decisions, c.id) == Approvals(b.decisions, c.id)
  }

  lemma SameVotesSameJoin(a: Db, b: Db, key: ScoreKey)
    requires DistinctCandidates(a.candidates) && DistinctCandidates(b.candidates) && SameVotes(a, b, key)
    ensures JoinRows(a, key) == JoinRows(b, key) && ApiScore(a, key) == ApiScore(b, key)
  {
    hide InEpoch, Approvals, JoinRows, EpochScoreFor;
    JoinAnswersQuery(a, key);
    var rows := JoinRows(a, key);
    forall c
      ensures multiset(rows)[c] == if c in b.candidates && InEpoch(key, c) then Approvals(b.decisions, c.id) else 0
    {
    }
    RowsOfAnswer(rows, b, key);
  }

  lemma SameVotesStayFresh(a: Db, b: Db, key: ScoreKey)
    requires DistinctCandidates(a.candidates) && DistinctCandidates(b.candidates) && SameVotes(a, b, key)
    requires (key in b.scores <==> key in a.scores) && (key in a.scores ==> b.scores[key] == a.scores[key])
    ensures Fresh(a, key) <==> Fresh(b, key)
  {
    hide SameVotes, JoinRows, ApiScore;
    SameVotesSameJoin(a, b, key);
  }

  /** A deciding step touches the votes of its candidate's epoch only. */
  lemma OtherEpochsKeepVotes(db: Db, step: Step, key: ScoreKey)
    requires Enabled(db, step) && Decides(step) && Aligned(key)
    requires key != KeyOf(step.c) || (Approves(Next(db, step).decisions, step.c.id, AgentOf(step)) <==>
                                      Approves(db.decisions, step.c.id, AgentOf(step)))
    requires DistinctCandidates(db.candidates)
    ensures SameVotes(db, Next(db, step), key)
  {
    hide Next, Enabled, InEpoch, KeyOf, Writes;
    StepWritesOneRow(db, step);
    OneEpochEach(key, step.c);
    var next := Next(db, step);
    forall c | c in db.candidates && InEpoch(key, c)
      ensures Approvals(db.decisions, c.id) == Approvals(next.decisions, c.id)
    {
      if c.id == step.c.id {
        assert step.c in db.candidates by { StepDecidesStored(db, step); }
        SameIdSameCandidate(db.candidates, c, step.c);
      }
    }
  }

  lemma StepDecidesStored(db: Db, step: Step)
    requires Enabled(db, step) && Decides(step)
    ensures step.c in db.candidates
  {
  }

  lemma QueuedIsFresh(next: Db, key: ScoreKey, c: Candidate)
    requires DistinctCandidates(next.candidates) && ScoredNow(next, key, c)
    ensures Fresh(next, key)
  {
    hide EpochScoreFor, JoinRows, AnswersQuery;
    var rows :| AnswersQuery(rows, next, key) && c in rows && next.scores[key] == EpochScoreFor(key, rows);
    RowsOfAnswer(rows, next, key);
  }

  lemma DecidingKeepsFresh(db: Db, step: Step)
    requires DistinctCandidates(db.candidates) && AllFresh(db) && Enabled(db, step) && Decides(step) && Proper(db, step)
    ensures AllFresh(Next(db, step))
  {
    hide Next, Enabled, Fresh, ScoredNow, PendingNow, Queues, Writes, SameVotes, KeyOf;
    var next := Next(db, step);
    StepWritesOneRow(db, step);
    forall key | Aligned(key)
      ensures Fresh(next, key)
    {
      if Queues(db, step) {
        ApprovalIsQueued(db, step);
        if key == KeyOf(step.c) {
          QueuedIsFresh(next, key, step.c);
        } else {
          OtherEpochsKeepVotes(db, step, key);
          SameVotesStayFresh(db, next, key);
        }
      } else {
        NothingElseIsQueued(db, step);
        OtherEpochsKeepVotes(db, step, key);
        SameVotesStayFresh(db, next, key);
      }
    }
  }

  lemma AddingKeepsFresh(db: Db, c: Candidate)
    requires DistinctCandidates(db.candidates) && AllFresh(db) && AllKnown(db) && Enabled(db, AddCandidate(c))
    ensures AllFresh(Next(db, AddCandidate(c)))
  {
    hide Fresh, InEpoch;
    var next := Next(db, AddCandidate(c));
    assert Approvals(next.decisions, c.id) == 0 by {
      assert !Known(db, c.id);
    }
    assert DistinctCandidates(next.candidates);
    hide Approvals;
    forall key | Aligned(key)
      ensures Fresh(next, key)
    {
      SameVotesStayFresh(db, next, key);
    }
  }

  lemma SweepingKeepsFresh(db: Db, step: Step)
    requires DistinctCandidates(db.candidates) && AllFresh(db) && Enabled(db, step)
    requires step.SubmitSweep? || step.IndexSweep?
    ensures AllFresh(Next(db, step))
  {
    NothingElseIsQueued(db, step);
    hide Fresh, OldestFirst, Submitted, Indexed, Reached, ContractAnswers, InEpoch, Approvals;
    var next := Next(db, step);
    forall key | Aligned(key)
      ensures Fresh(next, key)
    {
      SameVotesStayFresh(db, next, key);
    }
  }

  // ---- The converse ----

  lemma MoreVotesLongerJoin(a: Db, b: Db, key: ScoreKey, c: Candidate)
    requires DistinctCandidates(a.candidates) && a.candidates == b.candidates && c in a.candidates && InEpoch(key, c)
    requires Approvals(a.decisions, c.id) < Approvals(b.decisions, c.id)
    requires forall x :: x in a.candidates && x != c ==> Approvals(a.decisions, x.id) == Approvals(b.decisions, x.id)
    ensures |JoinRows(a, key)| < |JoinRows(b, key)|
  {
    hide InEpoch, Approvals, JoinRows;
    JoinAnswersQuery(a, key);
    JoinAnswersQuery(b, key);
    var fewer, more := multiset(JoinRows(a, key)), multiset(JoinRows(b, key));
    assert forall x :: fewer[x] <= more[x];
    assert fewer[c] < more[c];
    assert more == fewer + (more - fewer);
    assert |more - fewer| > 0 by { assert c in more - fewer; }
  }

  lemma LongerJoinIsStale(db: Db, next: Db, key: ScoreKey)
    requires Fresh(db, key) && next.scores == db.scores && |JoinRows(db, key)| != |JoinRows(next, key)|
    ensures !Fresh(next, key)
  {
    hide JoinRows, UptimeBps;
    assert |ApiScore(db, key).hashed.votes| == |JoinRows(db, key)|;
    assert |ApiScore(next, key).hashed.votes| == |JoinRows(next, key)|;
  }

  lemma ImproperIsStale(db: Db, step: Step)
    requires DistinctCandidates(db.candidates) && AllFresh(db) && Enabled(db, step) && !Proper(db, step)
    ensures !AllFresh(Next(db, step))
  {
    hide Enabled, Next, Fresh, Queues, Writes, JoinRows;
    var next, c, agent := Next(db, step), step.c, AgentOf(step);
    StepWritesOneRow(db, step);
    NothingElseIsQueued(db, step);
    StepDecidesStored(db, step);
    FloorBrackets(c.windowEnd);
    var key := KeyOf(c);
    assert InEpoch(key, c);
    forall x | x in db.candidates && x != c
      ensures Approvals(db.decisions, x.id) == Approvals(next.decisions, x.id)
    {
      if x.id == c.id {
        SameIdSameCandidate(db.candidates, x, c);
      }
    }
    var other := if agent == PolicyGate then AiVerifier else PolicyGate;
    assert DecisionKey(c.id, other) != DecisionKey(c.id, agent);
    assert Approves(db.decisions, c.id, other) <==> Approves(next.decisions, c.id, other);
    assert Approvals(db.decisions, c.id) != Approvals(next.decisions, c.id);
    hide Approvals, InEpoch, KeyOf;
    if Approvals(db.decisions, c.id) < Approvals(next.decisions, c.id) {
      MoreVotesLongerJoin(db, next, key, c);
    } else {
      MoreVotesLongerJoin(next, db, key, c);
    }
    LongerJoinIsStale(db, next, key);
  }

  /** A step keeps every database score equal to recomputation exactly when it writes the scores or leaves the approval
      of its candidate as it was: a preview of a new approval breaks them, and so does whatever takes an approval back,
      a rejection in review as well as a retried job whose second answer no longer approves. */
  lemma {:induction false} StepKeepsScoresExactly(db: Db, step: Step)
    requires DistinctCandidates(db.candidates) && AllKnown(db) && AllFresh(db) && Enabled(db, step)
    ensures AllFresh(Next(db, step)) <==> Proper(db, step)
  {
    hide Next, AllFresh, AllKnown, DistinctCandidates;
    if !Proper(db, step) {
      ImproperIsStale(db, step);
    } else if Decides(step) {
      DecidingKeepsFresh(db, step);
    } else if step.AddCandidate? {
      AddingKeepsFresh(db, step.c);
    } else {
      SweepingKeepsFresh(db, step);
    }
  }

  // ---- Whole runs ----

  ghost predicate IsProperRun(db: Db, steps: seq<Step>)
    decreases |steps|
  {
    steps == [] || (Enabled(db, steps[0]) && Proper(db, steps[0]) && IsProperRun(Next(db, steps[0]), steps[1..]))
  }

  lemma {:induction false} ProperRunIsRun(db: Db, steps: seq<Step>)
    requires IsProperRun(db, steps)
    ensures IsRun(db, steps)
    decreases |steps|
  {
    hide Enabled, Next, Proper;
    if steps != [] {
      ProperRunIsRun(Next(db, steps[0]), steps[1..]);
    }
  }

  lemma StepKeepsKnown(db: Db, step: Step)
    requires AllKnown(db) && Enabled(db, step)
    ensures AllKnown(Next(db, step))
  {
    var next := Next(db, step);
    if Decides(step) {
      StepWritesOneRow(db, step);
      StepDecidesStored(db, step);
      hide Next, Enabled, Writes;
      forall k | k in next.decisions
        ensures Known(next, k.candidateId)
      {
        if k == DecisionKey(step.c.id, AgentOf(step)) {
          assert step.c in next.candidates;
        } else {
          assert Known(db, k.candidateId);
        }
      }
    } else {
      OthersDecideNothing(db, step);
      hide Next, Enabled;
      forall k | k in next.decisions
        ensures Known(next, k.candidateId)
      {
        assert Known(db, k.candidateId);
      }
    }
  }

  lemma OthersDecideNothing(db: Db, step: Step)
    requires Enabled(db, step) && !Decides(step)
    ensures Next(db, step).decisions == db.decisions
    ensures forall c :: c in db.candidates ==> c in Next(db, step).candidates
  {
    hide OldestFirst, Submitted, Indexed, Reached, ContractAnswers;
  }

  /** A score and a commitment row are only ever written together. */
  ghost predicate Paired(db: Db) {
    db.commits.Keys == db.scores.Keys
  }

  lemma StepKeepsPaired(db: Db, step: Step)
    requires DistinctCandidates(db.candidates) && Paired(db) && Enabled(db, step)
    ensures Paired(Next(db, step))
  {
    hide Next, Enabled, ScoredNow, KeyOf;
    if Queues(db, step) {
      ApprovalIsQueued(db, step);
      QueueingPairs(db, Next(db, step), KeyOf(step.c), step.c);
    } else {
      NothingElseIsQueued(db, step);
      SweepsKeepKeys(db, step);
    }
  }

  lemma QueueingPairs(db: Db, next: Db, key: ScoreKey, c: Candidate)
    requires Paired(db) && ScoredNow(next, key, c) && key in next.commits && OthersStay(db, next, key)
    ensures Paired(next)
  {
    forall k
      ensures k in next.scores <==> k in next.commits
    {
      if k != key {
        assert k in db.scores.Keys <==> k in db.commits.Keys;
      }
    }
  }

  lemma SweepsKeepKeys(db: Db, step: Step)
    requires Enabled(db, step)
    ensures step.SubmitSweep? || step.IndexSweep? ==> Next(db, step).commits.Keys == db.commits.Keys
  {
    hide OldestFirst, ContractAnswers, ApiScore, WorkerScore, Queued;
    match step
    case SubmitSweep(batch, limit, now, answers) =>
      BatchIsSubmittable(db, batch, limit, now);
      SweepKeepsKeys(db, batch, now, answers);
    case IndexSweep(batch, limit, now, lookups) =>
      BatchIsIndexable(db, batch, limit);
    case _ =>
  }

  lemma {:induction false} ProperRunsStayFresh(db: Db, steps: seq<Step>)
    requires IsProperRun(db, steps) && Sound(db) && AllKnown(db) && AllFresh(db) && Paired(db)
    ensures IsRun(db, steps)
    ensures Sound(After(db, steps)) && AllFresh(After(db, steps)) && Paired(After(db, steps))
    decreases |steps|
  {
    hide Enabled, Next, Proper, AllKnown, AllFresh, Paired;
    ProperRunIsRun(db, steps);
    if steps != [] {
      StepKeepsSound(db, steps[0]);
      StepKeepsKnown(db, steps[0]);
      StepKeepsScoresExactly(db, steps[0]);
      StepKeepsPaired(db, steps[0]);
      ProperRunsStayFresh(Next(db, steps[0]), steps[1..]);
    }
  }

  lemma StartIsFresh()
    ensures Sound(NO_ROWS) && AllKnown(NO_ROWS) && AllFresh(NO_ROWS) && Paired(NO_ROWS)
  {
    StartIsSound();
    forall key
      ensures JoinRows(NO_ROWS, key) == []
    {
    }
  }

  ghost predicate HasVoteOf(votes: seq<Vote>, id: Id) {
    exists i :: 0 <= i < |votes| && votes[i].id == id
  }

  /** Which approvals have a score: in every proper run, every candidate that any agent approves votes in the stored
      score of its zone and epoch, which has a commitment row beside it; and a score is there only for such votes. */
  lemma {:induction false} ApprovedIffScored(steps: seq<Step>, c: Candidate)
    requires IsProperRun(NO_ROWS, steps) && IsRun(NO_ROWS, steps) && c in After(NO_ROWS, steps).candidates
    ensures var db, key := After(NO_ROWS, steps), KeyOf(c);
            && (Approvals(db.decisions, c.id) > 0 <==>
                  key in db.scores && HasVoteOf(db.scores[key].hashed.votes, c.id))
            && (key in db.scores <==> key in db.commits)
  {
    hide IsProperRun, IsRun, After, Approvals;
    StartIsFresh();
    ProperRunsStayFresh(NO_ROWS, steps);
    var db := After(NO_ROWS, steps);
    FloorBrackets(c.windowEnd);
    assert Fresh(db, KeyOf(c));
    assert KeyOf(c) in db.scores.Keys <==> KeyOf(c) in db.commits.Keys;
    VotesIffApproved(db, c);
  }

  lemma VotesIffApproved(db: Db, c: Candidate)
    requires DistinctCandidates(db.candidates) && c in db.candidates && Fresh(db, KeyOf(c))
    ensures var key := KeyOf(c);
            Approvals(db.decisions, c.id) > 0 <==>
              key in db.scores && HasVoteOf(db.scores[key].hashed.votes, c.id)
  {
    hide Approvals, JoinRows, UptimeBps, InEpoch;
    var key := KeyOf(c);
    var rows := JoinRows(db, key);
    JoinAnswersQuery(db, key);
    QueryRowIsCandidate(rows, db, key, c);
    HashNamesEveryVote(key, rows);
    hide EpochScoreFor;
    if Approvals(db.decisions, c.id) > 0 {
      OwnEpochIsNeverEmpty(db, c);
      var i :| 0 <= i < |rows| && rows[i] == c;
      assert db.scores[key].hashed.votes[i].id == c.id;
    }
    if key in db.scores {
      if i :| 0 <= i < |db.scores[key].hashed.votes| && db.scores[key].hashed.votes[i].id == c.id {
        assert rows[i].id == c.id && rows[i] in rows;
        QueryRowIsCandidate(rows, db, key, rows[i]);
        SameIdSameCandidate(db.candidates, rows[i], c);
      }
    }
  }

  // ---- A run in which an approval is taken back ----

  const READING := Candidate(1, 1, Restored, 7000, 0, 0, [1])
  const APPROVED: seq<Step> := [
    AddCandidate(READING), ApiRun(READING, Live, 0), WorkerRun(READING, Answers(Approve, 0.9), Live, 0)]
  const RETRIED := WorkerRun(READING, Answers(Reject, 0.9), Live, 0)

  lemma ReadingRuns() returns (one: Db, two: Db, three: Db)
    ensures one == NO_ROWS.(candidates := [READING])
    ensures Enabled(NO_ROWS, APPROVED[0]) && Next(NO_ROWS, APPROVED[0]) == one && Proper(NO_ROWS, APPROVED[0])
    ensures Enabled(one, APPROVED[1]) && Next(one, APPROVED[1]) == two && Proper(one, APPROVED[1])
    ensures Enabled(two, APPROVED[2]) && Next(two, APPROVED[2]) == three && Proper(two, APPROVED[2])
    ensures Enabled(three, RETRIED) && !Proper(three, RETRIED)
  {
    hide WorkerScore, Requeued, ApiScore;
    one := NO_ROWS.(candidates := [READING]);
    two := Next(one, APPROVED[1]);
    three := Next(two, APPROVED[2]);
  }

  /** The job of an approved reading runs again and its model now rejects: the decision follows, the score does not. */
  lemma {:induction false} RetriedJobGoesStale()
    ensures IsProperRun(NO_ROWS, APPROVED) && IsRun(NO_ROWS, APPROVED)
    ensures AllFresh(After(NO_ROWS, APPROVED))
    ensures Enabled(After(NO_ROWS, APPROVED), RETRIED) && !AllFresh(Next(After(NO_ROWS, APPROVED), RETRIED))
  {
    hide Enabled, Next, Proper, AllFresh, AllKnown, Paired, Sound;
    var one, two, three := ReadingRuns();
    StartIsFresh();
    assert APPROVED[1..] == [APPROVED[1], APPROVED[2]] && APPROVED[1..][1..] == [APPROVED[2]];
    assert [APPROVED[2]][1..] == [];
    assert IsProperRun(three, []) && IsProperRun(two, [APPROVED[2]]);
    assert IsProperRun(one, APPROVED[1..]);
    ProperRunsStayFresh(NO_ROWS, APPROVED);
    assert After(two, [APPROVED[2]]) == After(three, []) == three;
    assert After(one, APPROVED[1..]) == three;
    KnownAfter(NO_ROWS, one, two, three);
    SoundIsDistinct(three);
    StepKeepsScoresExactly(three, RETRIED);
  }

  lemma KnownAfter(zero: Db, one: Db, two: Db, three: Db)
    requires AllKnown(zero)
    requires Enabled(zero, APPROVED[0]) && Next(zero, APPROVED[0]) == one
    requires Enabled(one, APPROVED[1]) && Next(one, APPROVED[1]) == two
    requires Enabled(two, APPROVED[2]) && Next(two, APPROVED[2]) == three
    ensures AllKnown(three)
  {
    hide Enabled, Next, AllKnown;
    StepKeepsKnown(zero, APPROVED[0]);
    StepKeepsKnown(one, APPROVED[1]);
    StepKeepsKnown(two, APPROVED[2]);
  }

  lemma SoundIsDistinct(db: Db)
    requires Sound(db)
    ensures DistinctCandidates(db.candidates)
  {
  }
}
