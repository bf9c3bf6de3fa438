/** Database mode: the rows that the API, the agent worker, reviewers and the chain sweeps share
    (apps/api/src/modules/pipeline/service.ts, apps/agent-worker/src/result-sink.ts and orchestrator.ts). */
module Ledger {
  import opened Commitments
  import opened Domain
  import opened Ordering
  import opened Pipeline
  import opened Scores

  /** The agents that write decisions; there is one decision row for each candidate and agent. */
  datatype Agent = PolicyGate | AiVerifier

  datatype DecisionKey = DecisionKey(candidateId: Id, agent: Agent)

  /** The model names its own confidence, so here it is any real number. */
  datatype DecisionRow = DecisionRow(confidence: real, verdict: Verdict, review: Option<Review>)

  type DecisionRows = map<DecisionKey, DecisionRow>

  /** The tables, and the commitEpoch calls made so far. */
  datatype Db = Db(candidates: seq<Candidate>, decisions: DecisionRows, scores: ScoreRows, commits: Rows,
      calls: seq<Call>)

  const NO_ROWS := Db([], map[], map[], map[], [])

  // ---- The agent worker's decision ----

  /** What the two model calls come to: a verdict with a confidence, or an exception. */
  datatype AiAnswer = Answers(verdict: Verdict, finalConfidence: real) | Fails

  datatype OrchestrationResult = AgentDecision(verdict: Verdict, finalConfidence: real) | Escalates

  function OrchestrateCandidateReview(answer: AiAnswer): OrchestrationResult {
    match answer
    case Fails => Escalates
    case Answers(verdict, confidence) =>
      if verdict == Approve && confidence < 0.85 then Escalates else AgentDecision(verdict, confidence)
  }

  function ConfidenceAsReal(c: Candidate): real {
    c.confidence as real / 10000.0
  }

  function AgentDecisionFromResult(c: Candidate, result: OrchestrationResult): DecisionRow {
    match result
    case AgentDecision(verdict, confidence) => DecisionRow(confidence, verdict, None)
    case Escalates => DecisionRow(ConfidenceAsReal(c), Escalate, None)
  }

  function DecisionForCandidate(c: Candidate): DecisionRow {
    DecisionRow(ConfidenceAsReal(c), DecisionForConfidence(c.confidence), None)
  }

  // ---- The approved rows of an epoch ----

  predicate Approves(decisions: DecisionRows, id: Id, agent: Agent) {
    var key := DecisionKey(id, agent);
    key in decisions && decisions[key].verdict == Approve
  }

  function Approvals(decisions: DecisionRows, id: Id): nat {
    (if Approves(decisions, id, PolicyGate) then 1 else 0) + (if Approves(decisions, id, AiVerifier) then 1 else 0)
  }

  /** The join of candidates with approving decisions: one row for each such decision. */
  function Joined(cs: seq<Candidate>, decisions: DecisionRows, key: ScoreKey): seq<Candidate> {
    if cs == [] then []
    else
      var copies := if InEpoch(key, cs[0]) then Approvals(decisions, cs[0].id) else 0;
      seq(copies, i => cs[0]) + Joined(cs[1..], decisions, key)
  }

  /** The joined rows in the order of the query, by window end and then id. */
  function JoinRows(db: Db, key: ScoreKey): seq<Candidate> {
    Sort(Joined(db.candidates, db.decisions, key), CandidateStamp)
  }

  /** What the query promises, whatever plan answers it: every approving decision once, in order. */
  ghost predicate AnswersQuery(rows: seq<Candidate>, db: Db, key: ScoreKey) {
    && Nondecreasing(rows, CandidateStamp)
    && forall c :: multiset(rows)[c] == if c in db.candidates && InEpoch(key, c) then Approvals(db.decisions, c.id)
        else 0
  }

  function ApiScore(db: Db, key: ScoreKey): EpochScore {
    EpochScoreFor(key, JoinRows(db, key))
  }

  /** The worker falls back on its own candidate when the query finds nothing. */
  function WorkerScore(db: Db, c: Candidate): EpochScore {
    var approved := JoinRows(db, KeyOf(c));
    EpochScoreFor(KeyOf(c), if approved != [] then approved else [c])
  }

  // ---- Steps ----

  /** On conflict only the status of a commitment row is reset: a stored hash stays. */
  function Requeued(commits: Rows, key: ScoreKey, now: Instant): CommitRow {
    if key in commits then commits[key].(status := Pending) else CommitRow(Pending, None, None, None, now)
  }

  function Queued(db: Db, score: EpochScore, now: Instant): Db {
    db.(scores := db.scores[score.key := score],
        commits := db.commits[score.key := Requeued(db.commits, score.key, now)])
  }

  function Upserted(db: Db, id: Id, agent: Agent, row: DecisionRow): Db {
    db.(decisions := db.decisions[DecisionKey(id, agent) := row])
  }

  /** processCandidatePipeline in database mode. */
  function ApiProcessed(db: Db, c: Candidate, mode: Mode, now: Instant): Db {
    var row := DecisionForCandidate(c);
    var decided := Upserted(db, c.id, PolicyGate, row);
    if row.verdict == Approve && !IsPreview(mode) then Queued(decided, ApiScore(decided, KeyOf(c)), now) else decided
  }

  /** persistOrchestrationResult. */
  function WorkerPersisted(db: Db, c: Candidate, answer: AiAnswer, mode: Mode, now: Instant): Db {
    var row := AgentDecisionFromResult(c, OrchestrateCandidateReview(answer));
    var decided := Upserted(db, c.id, AiVerifier, row);
    if row.verdict == Approve && !IsPreview(mode) then Queued(decided, WorkerScore(decided, c), now) else decided
  }

  function ReviewedRow(row: DecisionRow, verdict: Verdict, note: string): DecisionRow {
    row.(verdict := verdict, review := Some(Review(row.verdict, verdict, note)))
  }

  /** resolveReviewDecision in database mode: any decision row may be resolved, by approval or rejection. */
  function ReviewResolved(db: Db, c: Candidate, agent: Agent, verdict: Verdict, note: string, now: Instant): Db {
    var key := DecisionKey(c.id, agent);
    if key !in db.decisions then db
    else
      var decided := Upserted(db, c.id, agent, ReviewedRow(db.decisions[key], verdict, note));
      if verdict == Approve then Queued(decided, ApiScore(decided, KeyOf(c)), now) else decided
  }

  function SubmitSwept(db: Db, batch: seq<ScoreKey>, now: Instant, answers: nat -> ChainAnswer): Db
    requires forall k :: k in batch ==> k in db.commits && k in db.scores
  {
    var done := Submitted(db.commits, db.scores, batch, |batch|, now, answers);
    db.(commits := done.rows, calls := db.calls + done.calls)
  }

  function IndexSwept(db: Db, batch: seq<ScoreKey>, receipts: string -> Lookup, now: Instant): Db
    requires forall k :: k in batch ==> k in db.commits
  {
    db.(commits := Indexed(db.commits, batch[..Reached(db.commits, batch, receipts)], receipts, now))
  }

  // ---- The rows determine the score ----

  ghost predicate DistinctCandidates(cs: seq<Candidate>) {
    forall i, j :: 0 <= i < j < |cs| ==> cs[i].id != cs[j].id
  }

  lemma {:induction false} JoinedCounts(cs: seq<Candidate>, decisions: DecisionRows, key: ScoreKey, c: Candidate)
    requires DistinctCandidates(cs)
    ensures multiset(Joined(cs, decisions, key))[c] == if c in cs && InEpoch(key, c) then Approvals(decisions, c.id)
        else 0
  {
    hide Approvals, InEpoch;
    if cs != [] {
      JoinedCounts(cs[1..], decisions, key, c);
      var copies: nat := if InEpoch(key, cs[0]) then Approvals(decisions, cs[0].id) else 0;
      CopiesCount(cs[0], copies, c);
      assert cs == [cs[0]] + cs[1..];
    }
  }

  lemma {:induction false} CopiesCount(x: Candidate, n: nat, c: Candidate)
    ensures multiset(seq(n, i => x))[c] == if c == x then n else 0
  {
    if n > 0 {
      CopiesCount(x, n - 1, c);
      assert seq(n, i => x) == seq(n - 1, i => x) + [x];
    }
  }

  lemma NondecreasingInQueryOrder(cs: seq<Candidate>)
    ensures InQueryOrder(Sort(cs, CandidateStamp))
  {
    var sorted := Sort(cs, CandidateStamp);
    SortNondecreasing(cs, CandidateStamp);
    forall i, j | 0 <= i < j < |sorted|
      ensures sorted[i].windowEnd < sorted[j].windowEnd
              || (sorted[i].windowEnd == sorted[j].windowEnd && sorted[i].id <= sorted[j].id)
    {
      assert !Before(CandidateStamp(sorted[j]), CandidateStamp(sorted[i]));
    }
  }

  lemma {:induction false} JoinAnswersQuery(db: Db, key: ScoreKey)
    requires DistinctCandidates(db.candidates)
    ensures AnswersQuery(JoinRows(db, key), db, key) && InQueryOrder(JoinRows(db, key))
  {
    hide Approvals, InEpoch, Joined;
    NondecreasingInQueryOrder(Joined(db.candidates, db.decisions, key));
    SortNondecreasing(Joined(db.candidates, db.decisions, key), CandidateStamp);
    forall c
      ensures multiset(JoinRows(db, key))[c] == if c in db.candidates && InEpoch(key, c)
          then Approvals(db.decisions, c.id) else 0
    {
      JoinedCounts(db.candidates, db.decisions, key, c);
    }
  }

  lemma QueryRowIsCandidate(rows: seq<Candidate>, db: Db, key: ScoreKey, c: Candidate)
    requires AnswersQuery(rows, db, key)
    ensures c in rows <==> c in db.candidates && InEpoch(key, c) && Approvals(db.decisions, c.id) > 0
  {
    assert c in rows <==> c in multiset(rows);
  }

  lemma SameIdSameCandidate(cs: seq<Candidate>, a: Candidate, b: Candidate)
    requires DistinctCandidates(cs) && a in cs && b in cs && a.id == b.id
    ensures a == b
  {
    var i :| 0 <= i < |cs| && cs[i] == a;
    var j :| 0 <= j < |cs| && cs[j] == b;
  }

  /** Any two answers to the query are the same rows in the same order, so the API and the worker hash alike. */
  lemma {:induction false} QueryHasOneAnswer(a: seq<Candidate>, b: seq<Candidate>, db: Db, key: ScoreKey)
    requires DistinctCandidates(db.candidates)
    requires AnswersQuery(a, db, key) && AnswersQuery(b, db, key)
    ensures a == b
  {
    hide InEpoch, Approvals;
    assert forall c :: multiset(a)[c] == multiset(b)[c];
    assert multiset(a) == multiset(b);
    forall x, y | x in a && y in a && CandidateStamp(x) == CandidateStamp(y)
      ensures x == y
    {
      QueryRowIsCandidate(a, db, key, x);
      QueryRowIsCandidate(a, db, key, y);
      SameIdSameCandidate(db.candidates, x, y);
    }
    NondecreasingIsUnique(a, b, CandidateStamp);
  }

  lemma RowsOfAnswer(rows: seq<Candidate>, db: Db, key: ScoreKey)
    requires DistinctCandidates(db.candidates) && AnswersQuery(rows, db, key)
    ensures JoinRows(db, key) == rows
  {
    JoinAnswersQuery(db, key);
    QueryHasOneAnswer(JoinRows(db, key), rows, db, key);
  }

  /** The worker and the API compute the same score exactly when some decision approves. */
  lemma {:induction false} WorkerAgreesWithApi(db: Db, c: Candidate)
    ensures WorkerScore(db, c) == ApiScore(db, KeyOf(c)) <==> JoinRows(db, KeyOf(c)) != []
  {
    if JoinRows(db, KeyOf(c)) == [] {
      assert |WorkerScore(db, c).hashed.votes| == 1 && |ApiScore(db, KeyOf(c)).hashed.votes| == 0;
    }
  }

  /** The fallback is out of reach for a stored candidate: its window end lies in its own epoch. */
  lemma {:induction false} OwnEpochIsNeverEmpty(db: Db, c: Candidate)
    requires DistinctCandidates(db.candidates) && c in db.candidates
    requires Approvals(db.decisions, c.id) > 0
    ensures c in JoinRows(db, KeyOf(c)) && WorkerScore(db, c) == ApiScore(db, KeyOf(c))
  {
    FloorBrackets(c.windowEnd);
    JoinAnswersQuery(db, KeyOf(c));
    QueryRowIsCandidate(JoinRows(db, KeyOf(c)), db, KeyOf(c), c);
    WorkerAgreesWithApi(db, c);
  }

  // ---- Against memory mode ----

  /** The maps and the tables hold the same candidates and the same approvals. */
  ghost predicate SameApprovals(m: Maps, db: Db) {
    && Coherent(m) && DistinctCandidates(db.candidates)
    && (forall c :: c in db.candidates <==> c.id in m.candidates.entries && m.candidates.entries[c.id] == c)
    && (forall c :: c in db.candidates ==> (IsApproved(m, c.id) <==> Approvals(db.decisions, c.id) > 0))
  }

  /** Some candidate of the epoch is approved by both agents. */
  ghost predicate CountedTwice(db: Db, key: ScoreKey) {
    exists c :: c in db.candidates && InEpoch(key, c) && Approvals(db.decisions, c.id) > 1
  }

  lemma ApprovedRows(m: Maps, db: Db, key: ScoreKey, c: Candidate)
    requires SameApprovals(m, db)
    ensures multiset(Approved(m, key))[c] == if c in db.candidates && InEpoch(key, c) &&
        Approvals(db.decisions, c.id) > 0 then 1 else 0
  {
    hide Approved, InEpoch, Approvals, IsApproved;
    ApprovedIsSorted(m, key);
    InApprovedIffStored(m, key, c);
    IncreasingOnce(Approved(m, key), c);
    assert c in Approved(m, key) <==> c in Elements(Approved(m, key));
  }

  lemma IncreasingOnce(s: seq<Candidate>, c: Candidate)
    requires Increasing(s, CandidateStamp)
    ensures multiset(s)[c] == if c in s then 1 else 0
  {
    if c in s {
      var i :| 0 <= i < |s| && s[i] == c;
      assert c !in s[..i] by {
        forall j | 0 <= j < i
          ensures s[j] != c
        {
          assert Before(CandidateStamp(s[j]), CandidateStamp(s[i]));
        }
      }
      assert c !in s[i + 1..] by {
        forall j | i < j < |s|
          ensures s[j] != c
        {
          assert Before(CandidateStamp(s[i]), CandidateStamp(s[j]));
        }
      }
      assert s == s[..i] + [c] + s[i + 1..];
    }
  }

  /** Memory mode counts candidates, database mode counts approving decisions: the scores agree exactly when no
      candidate of the epoch is approved by both agents. */
  lemma {:induction false} MemoryAgreesWithDatabase(m: Maps, db: Db, key: ScoreKey)
    requires SameApprovals(m, db)
    ensures Recomputed(m, key) == ApiScore(db, key) <==> !CountedTwice(db, key)
  {
    if !CountedTwice(db, key) {
      OnceEachAgree(m, db, key);
    } else {
      TwiceDiffers(m, db, key);
    }
  }

  lemma OnceEachAgree(m: Maps, db: Db, key: ScoreKey)
    requires SameApprovals(m, db) && !CountedTwice(db, key)
    ensures Approved(m, key) == JoinRows(db, key)
  {
    hide Approved, JoinRows;
    ApprovedIsSorted(m, key);
    forall c
      ensures multiset(Approved(m, key))[c] == if c in db.candidates && InEpoch(key, c)
          then Approvals(db.decisions, c.id) else 0
    {
      ApprovedRows(m, db, key, c);
    }
    RowsOfAnswer(Approved(m, key), db, key);
  }

  lemma TwiceDiffers(m: Maps, db: Db, key: ScoreKey)
    requires SameApprovals(m, db) && CountedTwice(db, key)
    ensures |JoinRows(db, key)| > |Approved(m, key)|
  {
    hide Approved, JoinRows, InEpoch, Approvals;
    JoinAnswersQuery(db, key);
    var once, rows := multiset(Approved(m, key)), multiset(JoinRows(db, key));
    forall c
      ensures once[c] <= rows[c]
    {
      ApprovedRows(m, db, key, c);
    }
    var c :| c in db.candidates && InEpoch(key, c) && Approvals(db.decisions, c.id) > 1;
    ApprovedRows(m, db, key, c);
    assert once <= rows && once[c] < rows[c];
    assert rows == once + (rows - once);
    assert |rows - once| > 0 by { assert c in rows - once; }
  }
}
