/** Where the score cache does go stale: exactly which uninterleaved calls keep it equal to recomputation. */
module PipelineLimits {
  import opened Agreement
  import opened Domain
  import opened GapArithmetic
  import opened Heartbeat
  import opened Pipeline
  import opened PipelineRuns
  import opened Scores
  import opened Silence

  lemma SameVotesSameIds(a: seq<Candidate>, b: seq<Candidate>, c: Candidate)
    requires Votes(a) == Votes(b) && c in a
    ensures exists x :: x in b && x.id == c.id
  {
    var i: nat :| i < |a| && a[i] == c;
    assert Votes(a)[i] == VoteOf(a[i]) && |Votes(b)| == |b|;
    assert Votes(b)[i] == VoteOf(b[i]);
  }

  lemma RecomputedVotes(m: Maps, key: ScoreKey)
    ensures Recomputed(m, key).hashed.votes == Votes(Approved(m, key))
  {
  }

  lemma DifferentApprovedDifferentScore(m: Maps, n: Maps, key: ScoreKey, c: Candidate)
    requires Coherent(m) && Coherent(n)
    requires c in ApprovedSet(m, key) && forall x :: x in ApprovedSet(n, key) ==> x.id != c.id
    ensures Recomputed(m, key) != Recomputed(n, key)
  {
    hide Recomputed;
    ApprovedIsSorted(m, key);
    ApprovedIsSorted(n, key);
    RecomputedVotes(m, key);
    RecomputedVotes(n, key);
    if Recomputed(m, key) == Recomputed(n, key) {
      SameVotesSameIds(Approved(m, key), Approved(n, key), c);
    }
  }

  /** The approved set of a zone and epoch changed and its score did not: the score is now stale. */
  lemma ChangeWithoutRescoreIsStale(m: Maps, later: Maps, key: ScoreKey, c: Candidate)
    requires Coherent(m) && Coherent(later) && later.scores == m.scores
    requires UpToDate(m, key)
    requires || (c in ApprovedSet(m, key) && forall x :: x in ApprovedSet(later, key) ==> x.id != c.id)
             || (c in ApprovedSet(later, key) && forall x :: x in ApprovedSet(m, key) ==> x.id != c.id)
    ensures !UpToDate(later, key)
  {
    hide Recomputed;
    if c in ApprovedSet(m, key) && forall x :: x in ApprovedSet(later, key) ==> x.id != c.id {
      DifferentApprovedDifferentScore(m, later, key, c);
    } else {
      DifferentApprovedDifferentScore(later, m, key, c);
    }
  }

  lemma ApprovedIdsAreStored(m: Maps, key: ScoreKey)
    requires Coherent(m)
    ensures forall x :: x in ApprovedSet(m, key) ==>
        x.id in m.candidates.entries && m.candidates.entries[x.id] == x && IsApproved(m, x.id)
  {
    forall x | x in ApprovedSet(m, key)
      ensures x.id in m.candidates.entries && m.candidates.entries[x.id] == x && IsApproved(m, x.id)
    {
      InApprovedIffStored(m, key, x);
    }
  }

  lemma KeyIsAligned(c: Candidate)
    ensures Aligned(KeyOf(c)) && InEpoch(KeyOf(c), c)
  {
    FloorBrackets(c.windowEnd);
  }

  lemma DecidedConsistency(m: Maps, c: Candidate, decisionId: Id)
    requires Coherent(m) && Consistent(m) && c.id !in m.decisions.entries
    ensures Coherent(Decided(m, c, decisionId))
    ensures Consistent(Decided(m, c, decisionId)) <==> DecisionForConfidence(c.confidence) != Approve
    ensures forall key :: Aligned(key) && key != KeyOf(c) ==> UpToDate(Decided(m, c, decisionId), key)
  {
    hide UpToDate, DecisionForConfidence, InEpoch;
    var later := Decided(m, c, decisionId);
    DecidedApproves(m, c, decisionId, KeyOf(c));
    forall key | Aligned(key) && (key != KeyOf(c) || DecisionForConfidence(c.confidence) != Approve)
      ensures UpToDate(later, key)
    {
      DecidedApproves(m, c, decisionId, key);
      OneEpochEach(key, c);
      assert ApprovedSet(later, key) == ApprovedSet(m, key);
      UntouchedStaysUpToDate(m, later, key);
    }
    if DecisionForConfidence(c.confidence) == Approve {
      KeyIsAligned(c);
      ApprovedIdsAreStored(m, KeyOf(c));
      assert m.decisions.entries.Keys == m.candidates.entries.Keys;
      ChangeWithoutRescoreIsStale(m, later, KeyOf(c), c);
    }
  }

  /** A candidate's pipeline run keeps every score equal to recomputation exactly when it is not the preview
      of an approval. */
  lemma {:induction false} RunKeepsScoresExactly(m: Maps, c: Candidate, decisionId: Id, mode: Mode)
    requires Coherent(m) && Consistent(m) && c.id !in m.decisions.entries
    ensures Consistent(Processed(m, c, decisionId, mode)) <==>
        !(IsPreview(mode) && DecisionForConfidence(c.confidence) == Approve)
  {
    hide UpToDate, Consistent, DecisionForConfidence, Rescored;
    DecidedConsistency(m, c, decisionId);
    if DecisionForConfidence(c.confidence) == Approve && !IsPreview(mode) {
      RescoredIsConsistent(Decided(m, c, decisionId), c);
    }
  }

  lemma RescoredIsConsistent(m: Maps, c: Candidate)
    requires Coherent(m) && HeldApproved(m, c)
    requires forall key :: Aligned(key) && key != KeyOf(c) ==> UpToDate(m, key)
    ensures Consistent(Rescored(m, c))
  {
    hide UpToDate;
    forall key | Aligned(key)
      ensures UpToDate(Rescored(m, c), key)
    {
      if key == KeyOf(c) {
        RescoringUpdates(m, c);
      } else {
        RescoringSpares(m, c, key);
      }
    }
  }

  lemma RuledConsistency(m: Maps, d: Decision, verdict: Verdict, note: string)
    requires Coherent(m) && Consistent(m)
    requires d.candidateId in m.decisions.entries && m.decisions.entries[d.candidateId] == d
    ensures d.candidateId in m.candidates.entries
    ensures Coherent(Ruled(m, d, verdict, note))
    ensures Consistent(Ruled(m, d, verdict, note)) <==> (verdict == Approve <==> d.verdict == Approve)
    ensures forall key :: Aligned(key) && key != KeyOf(m.candidates.entries[d.candidateId]) ==>
        UpToDate(Ruled(m, d, verdict, note), key)
  {
    hide UpToDate, InEpoch;
    assert d.candidateId in m.candidates.entries.Keys;
    var c := m.candidates.entries[d.candidateId];
    var later := Ruled(m, d, verdict, note);
    RuledApproves(m, d, verdict, note, KeyOf(c));
    KeyIsAligned(c);
    forall key | Aligned(key) && (key != KeyOf(c) || (verdict == Approve <==> d.verdict == Approve))
      ensures UpToDate(later, key)
    {
      RuledApproves(m, d, verdict, note, key);
      OneEpochEach(key, c);
      InApprovedIffStored(m, key, c);
      assert ApprovedSet(later, key) == ApprovedSet(m, key);
      UntouchedStaysUpToDate(m, later, key);
    }
    if (verdict == Approve) != (d.verdict == Approve) {
      ApprovedIdsAreStored(m, KeyOf(c));
      ApprovedIdsAreStored(later, KeyOf(c));
      InApprovedIffStored(m, KeyOf(c), c);
      InApprovedIffStored(later, KeyOf(c), c);
      ChangeWithoutRescoreIsStale(m, later, KeyOf(c), c);
    }
  }

  /** A review keeps every score equal to recomputation exactly when a rejection does not strike something already
      approved, and an approval finds its candidate among the recorded ones or changes nothing. */
  lemma {:induction false} ReviewKeepsScoresExactly(m: Maps, stored: seq<Candidate>, d: Decision, verdict: Verdict,
      note: string)
    requires Coherent(m) && Consistent(m) && verdict != Escalate
    requires d.candidateId in m.decisions.entries && m.decisions.entries[d.candidateId] == d
    requires match FindCandidate(stored, d.candidateId)
             case None => true
             case Some(c) => d.candidateId in m.candidates.entries && m.candidates.entries[d.candidateId] == c
    ensures Consistent(Resolved(m, stored, d, verdict, note)) <==>
            if verdict == Reject then d.verdict != Approve
            else d.verdict == Approve || FindCandidate(stored, d.candidateId).Some?
  {
    hide UpToDate, Consistent, FindCandidate, Rescored, Coherent, Applied, Recomputed;
    RuledConsistency(m, d, verdict, note);
    var ruled := Ruled(m, d, verdict, note);
    match FindCandidate(stored, d.candidateId)
    case None =>
    case Some(c) =>
      StoredUnderItsId(m, d.candidateId);
      HoldingAgainIsIdle(ruled, c, verdict);
      if verdict == Approve {
        RescoredIsConsistent(ruled, c);
      }
  }

  lemma NothingOwed(s: Machine)
    requires CacheOwed(s) && forall t, key :: t in s.tasks ==> !TaskOwes(s, s.tasks[t], key)
    ensures Consistent(s.maps)
  {
    hide UpToDate, TaskOwes;
  }

  /** The condition of quiescent consistency is exact: from any state at rest that a proper run can reach, the next
      stretch keeps the invariant if and only if it neither previews an approval nor rejects something approved. */
  lemma {:induction false} ProperIsExact(s: Machine, op: Op)
    requires Inv(s) && s.tasks == map[] && Enabled(s, op)
    ensures Inv(Next(s, op)) <==> Proper(s, op)
  {
    hide Consistent, Coherent, Committed, Warranted, FindDecision, StoredAgree, TasksHold, CacheOwed, Decided, Ruled;
    if Proper(s, op) {
      StepKeepsInv(s, op);
    } else {
      NothingOwed(s);
      var later := Next(s, op);
      match op
      case Submit(t, c, d, mode) =>
        DecidedConsistency(s.maps, c, d);
        if Inv(later) {
          NothingOwed(later);
        }
      case Rule(t, id, v, note) =>
        FoundIsStored(s.maps, id);
        RuledConsistency(s.maps, FindDecision(s.maps.decisions.Values(), id).value, v, note);
        if Inv(later) {
          NothingOwed(later);
        }
    }
  }

  lemma StoredUnderItsId(m: Maps, id: Id)
    requires Coherent(m) && id in m.candidates.entries
    ensures m.candidates.entries[id].id == id
  {
  }

  // ---- Concrete failures ----

  const SAMPLE := Candidate(1, 7, Restored, 9000, 0, 1000, [5])

  lemma EmptyIsConsistent()
    ensures Coherent(EMPTY) && Consistent(EMPTY)
  {
    forall key: ScoreKey
      ensures UpToDate(EMPTY, key)
    {
      assert ApprovedSet(EMPTY, key) == {};
    }
  }

  /** Previewing the approval of one candidate leaves an approved candidate without a score. */
  lemma {:induction false} PreviewGoesStale()
    ensures !Consistent(Processed(EMPTY, SAMPLE, 2, Simulated(false)))
  {
    EmptyIsConsistent();
    RunKeepsScoresExactly(EMPTY, SAMPLE, 2, Simulated(false));
  }

  /** Approving a candidate and then rejecting it in review leaves a score for nothing. */
  lemma {:induction false} RejectingTheApprovedGoesStale(note: string)
    ensures var m := Processed(EMPTY, SAMPLE, 2, Live);
            Consistent(m) && !Consistent(Resolved(m, [SAMPLE], m.decisions.entries[1], Reject, note))
  {
    hide Consistent, Rescored;
    EmptyIsConsistent();
    RunKeepsScoresExactly(EMPTY, SAMPLE, 2, Live);
    DecidedConsistency(EMPTY, SAMPLE, 2);
    RescoredApproves(Decided(EMPTY, SAMPLE, 2), SAMPLE, KeyOf(SAMPLE));
    RescoredKeepsMaps(Decided(EMPTY, SAMPLE, 2), SAMPLE);
    var m := Processed(EMPTY, SAMPLE, 2, Live);
    ReviewKeepsScoresExactly(m, [SAMPLE], m.decisions.entries[1], Reject, note);
  }

  // ---- Uncertain candidates reach no score ----

  /** A reading contradicted by another witness inside the window leaves every score and commitment as it was
      when its pipeline runs, in any mode. */
  lemma {:induction false} ContestedReadingScoresNothing(m: Maps, e: Evidence, recent: seq<Evidence>, o: Evidence,
      id: Id, decisionId: Id, mode: Mode)
    requires e.status != Unknown && o in recent && Contradicts(e, o)
    ensures var later := Processed(m, CandidateFor(e, recent, id).value, decisionId, mode);
            later.scores == m.scores && later.commitments == m.commitments
  {
    hide Rescored, CandidateFor;
    UncertaintyNeverAutoCommits(e, recent, id);
  }

  /** So does a silence that only one witness fell into. */
  lemma {:induction false} LoneSilenceScoresNothing(m: Maps, zone: ZoneId, evidence: seq<Evidence>, now: Instant,
      g: Gap, id: Id, decisionId: Id, mode: Mode)
    requires DistinctIds(evidence) && g in Gaps(zone, evidence, HEARTBEAT_GAP_MS, now)
    requires |WitnessesAt(BeatSet(zone, evidence), g.windowStart, HEARTBEAT_GAP_MS)| < 2
    ensures var later := Processed(m, CandidateOf(g, id), decisionId, mode);
            later.scores == m.scores && later.commitments == m.commitments
  {
    hide GapConfidence, Rescored, WitnessesAt, Gaps;
    ReportedIsDescribed(zone, evidence, HEARTBEAT_GAP_MS, now, g);
    WitnessesNeededForApproval(g.windowEnd - g.windowStart, HEARTBEAT_GAP_MS,
        |WitnessesAt(BeatSet(zone, evidence), g.windowStart, HEARTBEAT_GAP_MS)|);
  }
}
