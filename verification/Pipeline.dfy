/** The approve / escalate / reject pipeline in memory mode (apps/api/src/modules/pipeline/service.ts).
    Decisions are written first; the epoch score and its commitment are recomputed after an await. */
module Pipeline {
  import opened Collections
  import opened Domain
  import opened Ordering
  import opened Scores

  datatype Review = Review(initial: Verdict, decision: Verdict, note: string)

  /** The stored decision of a candidate; `review` is the record a reviewer leaves in the reasoning trace. */
  datatype Decision = Decision(id: Id, candidateId: Id, confidence: int, verdict: Verdict, review: Option<Review>)

  datatype CommitmentStatus = Pending | Confirmed | Failed

  datatype Commitment = Commitment(score: ScoreKey, status: CommitmentStatus, txHash: Option<string>,
      blockNumber: Option<nat>, confirmedAt: Option<Instant>)

  function PendingCommitment(key: ScoreKey): Commitment {
    Commitment(key, Pending, None, None, None)
  }

  /** The four module-level maps. */
  datatype Maps = Maps(
    decisions: OrderedMap<Id, Decision>,
    candidates: OrderedMap<Id, Candidate>,
    scores: OrderedMap<ScoreKey, EpochScore>,
    commitments: OrderedMap<ScoreKey, Commitment>)

  const EMPTY := Maps(EmptyMap(), EmptyMap(), EmptyMap(), EmptyMap())

  function DecisionFor(c: Candidate, decisionId: Id): Decision {
    Decision(decisionId, c.id, c.confidence, DecisionForConfidence(c.confidence), None)
  }

  predicate IsApproved(m: Maps, id: Id) {
    id in m.decisions.entries && m.decisions.entries[id].verdict == Approve
  }

  predicate Counts(m: Maps, key: ScoreKey, c: Candidate) {
    InEpoch(key, c) && IsApproved(m, c.id)
  }

  /** The approved candidates of a zone and epoch, sorted by (window end, id). */
  function Approved(m: Maps, key: ScoreKey): seq<Candidate> {
    Sort(Filter(m.candidates.Values(), (c: Candidate) => Counts(m, key, c)), CandidateStamp)
  }

  function Recomputed(m: Maps, key: ScoreKey): EpochScore {
    EpochScoreFor(key, Approved(m, key))
  }

  // ---- The stretches between awaits ----

  function Decided(m: Maps, c: Candidate, decisionId: Id): Maps {
    m.(decisions := Put(m.decisions, c.id, DecisionFor(c, decisionId)), candidates := Put(m.candidates, c.id, c))
  }

  function Rescored(m: Maps, c: Candidate): Maps {
    var key := KeyOf(c);
    m.(scores := Put(m.scores, key, Recomputed(m, key)), commitments := Put(m.commitments, key, PendingCommitment(key)))
  }

  function ReviewedDecision(d: Decision, verdict: Verdict, note: string): Decision {
    d.(verdict := verdict, review := Some(Review(d.verdict, verdict, note)))
  }

  function Ruled(m: Maps, d: Decision, verdict: Verdict, note: string): Maps {
    m.(decisions := Put(m.decisions, d.candidateId, ReviewedDecision(d, verdict, note)))
  }

  function Held(m: Maps, c: Candidate): Maps {
    m.(candidates := Put(m.candidates, c.id, c))
  }

  function Applied(m: Maps, c: Candidate, verdict: Verdict): Maps {
    if verdict == Approve then Rescored(Held(m, c), c) else Held(m, c)
  }

  // ---- The operations, run without interleaving ----

  /** A simulated run may forbid the chain write; then an approval stops at a preview. */
  datatype Mode = Live | Simulated(allowChainWrite: bool)

  predicate IsPreview(mode: Mode) {
    mode.Simulated? && !mode.allowChainWrite
  }

  function Processed(m: Maps, c: Candidate, decisionId: Id, mode: Mode): Maps {
    var decided := Decided(m, c, decisionId);
    if DecisionForConfidence(c.confidence) == Approve && !IsPreview(mode) then Rescored(decided, c) else decided
  }

  /** The first decision with the given id, in insertion order. */
  function FindDecision(decisions: seq<Decision>, id: Id): Option<Decision> {
    if decisions == [] then None
    else if decisions[0].id == id then Some(decisions[0])
    else FindDecision(decisions[1..], id)
  }

  function FindCandidate(stored: seq<Candidate>, id: Id): Option<Candidate> {
    if stored == [] then None
    else if stored[0].id == id then Some(stored[0])
    else FindCandidate(stored[1..], id)
  }

  function Resolved(m: Maps, stored: seq<Candidate>, d: Decision, verdict: Verdict, note: string): Maps {
    var ruled := Ruled(m, d, verdict, note);
    match FindCandidate(stored, d.candidateId)
    case None => ruled
    case Some(c) => Applied(ruled, c, verdict)
  }

  datatype PipelineResult =
    | Result(decision: Decision, epochScore: Option<EpochScore>, commitment: Option<Commitment>)
    | ReviewNotFound

  class PipelineMaps {
    var memoryDecisions: OrderedMap<Id, Decision>
    var memoryCandidatesById: OrderedMap<Id, Candidate>
    var memoryEpochScoresByKey: OrderedMap<ScoreKey, EpochScore>
    var memoryCommitmentsByEpochScore: OrderedMap<ScoreKey, Commitment>

    function State(): Maps
      reads this
    {
      Maps(memoryDecisions, memoryCandidatesById, memoryEpochScoresByKey, memoryCommitmentsByEpochScore)
    }

    constructor ()
      ensures State() == EMPTY
    {
      memoryDecisions := EmptyMap();
      memoryCandidatesById := EmptyMap();
      memoryEpochScoresByKey := EmptyMap();
      memoryCommitmentsByEpochScore := EmptyMap();
    }

    method StoreDecision(c: Candidate, decisionId: Id) returns (decision: Decision)
      modifies this
      ensures State() == Decided(old(State()), c, decisionId)
      ensures decision == DecisionFor(c, decisionId)
    {
      decision := DecisionFor(c, decisionId);
      memoryDecisions := Put(memoryDecisions, c.id, decision);
      memoryCandidatesById := Put(memoryCandidatesById, c.id, c);
    }

    method RecomputeMemoryEpochScore(c: Candidate) returns (score: EpochScore)
      ensures score == Recomputed(State(), KeyOf(c))
      ensures Coherent(State()) ==> Tallies(score, KeyOf(c), ApprovedSet(State(), KeyOf(c)))
    {
      var key := KeyOf(c);
      var m := State();
      var approved := Sort(Filter(memoryCandidatesById.Values(), (item: Candidate) => Counts(m, key, item)),
          CandidateStamp);
      score := EpochScoreFor(key, approved);
      if Coherent(m) {
        RecomputedTallies(m, key);
      }
    }

    method StoreScore(c: Candidate) returns (score: EpochScore, commitment: Commitment)
      modifies this
      ensures State() == Rescored(old(State()), c)
      ensures score == Recomputed(old(State()), KeyOf(c)) && commitment == PendingCommitment(KeyOf(c))
    {
      score := RecomputeMemoryEpochScore(c);
      commitment := PendingCommitment(score.key);
      memoryEpochScoresByKey := Put(memoryEpochScoresByKey, score.key, score);
      memoryCommitmentsByEpochScore := Put(memoryCommitmentsByEpochScore, score.key, commitment);
    }

    method ProcessCandidatePipeline(c: Candidate, decisionId: Id, mode: Mode) returns (result: PipelineResult)
      modifies this
      ensures State() == Processed(old(State()), c, decisionId, mode)
      ensures result.Result? && result.decision == DecisionFor(c, decisionId)
      ensures result.epochScore == if result.decision.verdict == Approve && !IsPreview(mode)
                                   then Some(State().scores.entries[KeyOf(c)]) else None
      ensures result.commitment == if result.epochScore.Some? then Some(PendingCommitment(KeyOf(c))) else None
    {
      var decision := StoreDecision(c, decisionId);
      if decision.verdict == Approve {
        if IsPreview(mode) {
          return Result(decision, None, None);
        }
        var score, commitment := StoreScore(c);
        return Result(decision, Some(score), Some(commitment));
      }
      return Result(decision, None, None);
    }

    method ResolveReviewDecision(decisionId: Id, verdict: Verdict, note: string, stored: seq<Candidate>)
        returns (result: PipelineResult)
      modifies this
      ensures match FindDecision(old(State()).decisions.Values(), decisionId)
              case None => result == ReviewNotFound && State() == old(State())
              case Some(d) =>
                && State() == Resolved(old(State()), stored, d, verdict, note)
                && result.Result? && result.decision == ReviewedDecision(d, verdict, note)
                && match FindCandidate(stored, d.candidateId)
                   case Some(c) =>
                     if verdict == Approve
                     then
                       && result.epochScore ==
                           Some(Recomputed(Held(Ruled(old(State()), d, verdict, note), c), KeyOf(c)))
                       && result.commitment == Some(PendingCommitment(KeyOf(c)))
                     else result.epochScore.None? && result.commitment.None?
                   case None => result.epochScore.None? && result.commitment.None?
    {
      hide Recomputed, FindDecision, FindCandidate, ReviewedDecision, KeyOf, PendingCommitment;
      var found := FindDecision(memoryDecisions.Values(), decisionId);
      if found.None? {
        return ReviewNotFound;
      }
      var current := found.value;
      var updated := ReviewedDecision(current, verdict, note);
      memoryDecisions := Put(memoryDecisions, current.candidateId, updated);
      var lookup := FindCandidate(stored, current.candidateId);
      if lookup.None? {
        return Result(updated, None, None);
      }
      var c := lookup.value;
      memoryCandidatesById := Put(memoryCandidatesById, c.id, c);
      if verdict == Approve {
        var score, commitment := StoreScore(c);
        return Result(updated, Some(score), Some(commitment));
      }
      return Result(updated, None, None);
    }
  }

  // ---- What the maps mean ----

  /** Each decision and candidate sits under its candidate's id, and both maps know the same ids. */
  ghost predicate Coherent(m: Maps) {
    && (forall id :: id in m.decisions.entries ==> m.decisions.entries[id].candidateId == id)
    && (forall id :: id in m.candidates.entries ==> m.candidates.entries[id].id == id)
    && m.decisions.entries.Keys == m.candidates.entries.Keys
  }

  ghost predicate Aligned(key: ScoreKey) {
    key.epochStart % EPOCH_DURATION_MS == 0
  }

  /** The approved candidates as a set: what the score of a zone and epoch may depend on. */
  ghost function ApprovedSet(m: Maps, key: ScoreKey): set<Candidate> {
    set id | id in m.candidates.entries && Counts(m, key, m.candidates.entries[id]) :: m.candidates.entries[id]
  }

  lemma ValueUnderItsId(m: Maps, i: nat)
    requires Coherent(m) && i < |m.candidates.order|
    ensures m.candidates.Values()[i].id == m.candidates.order[i]
  {
    assert m.candidates.order[i] in m.candidates.order;
    assert m.candidates.Values()[i] == m.candidates.entries[m.candidates.order[i]];
  }

  lemma InValuesIffStored(m: Maps, c: Candidate)
    requires Coherent(m)
    ensures c in m.candidates.Values() <==> c.id in m.candidates.entries && m.candidates.entries[c.id] == c
  {
    var all := m.candidates.Values();
    if c in all {
      var i: nat :| i < |all| && all[i] == c;
      ValueUnderItsId(m, i);
    }
    if c.id in m.candidates.entries {
      assert c.id in m.candidates.order;
      var i: nat :| i < |m.candidates.order| && m.candidates.order[i] == c.id;
      assert all[i] == m.candidates.entries[c.id];
    }
  }

  lemma FilterDistinctIds(m: Maps, key: ScoreKey)
    requires Coherent(m)
    ensures DistinctStamps(Filter(m.candidates.Values(), (c: Candidate) => Counts(m, key, c)), CandidateStamp)
  {
    var differ := (a: Candidate, b: Candidate) => a.id != b.id;
    var all := m.candidates.Values();
    forall i, j | 0 <= i < j < |all|
      ensures differ(all[i], all[j])
    {
      ValueUnderItsId(m, i);
      ValueUnderItsId(m, j);
    }
    FilterPairwise(all, (c: Candidate) => Counts(m, key, c), differ);
    var kept := Filter(all, (c: Candidate) => Counts(m, key, c));
    forall i, j | 0 <= i < j < |kept|
      ensures CandidateStamp(kept[i]) != CandidateStamp(kept[j])
    {
      assert differ(kept[i], kept[j]);
    }
  }

  /** By window end, and by id where that is the same. */
  ghost predicate InQueryOrder(cs: seq<Candidate>) {
    forall i, j :: 0 <= i < j < |cs| ==>
      cs[i].windowEnd < cs[j].windowEnd || (cs[i].windowEnd == cs[j].windowEnd && cs[i].id <= cs[j].id)
  }

  lemma IncreasingInQueryOrder(cs: seq<Candidate>)
    requires Increasing(cs, CandidateStamp)
    ensures InQueryOrder(cs)
  {
    forall i, j | 0 <= i < j < |cs|
      ensures cs[i].windowEnd < cs[j].windowEnd || (cs[i].windowEnd == cs[j].windowEnd && cs[i].id <= cs[j].id)
    {
      assert Before(CandidateStamp(cs[i]), CandidateStamp(cs[j]));
    }
  }

  lemma {:induction false} ApprovedIsSorted(m: Maps, key: ScoreKey)
    requires Coherent(m)
    ensures Increasing(Approved(m, key), CandidateStamp)
    ensures Elements(Approved(m, key)) == ApprovedSet(m, key)
    ensures InQueryOrder(Approved(m, key))
  {
    hide Counts, ApprovedSet;
    var kept := Filter(m.candidates.Values(), (c: Candidate) => Counts(m, key, c));
    FilterDistinctIds(m, key);
    SortIncreasing(kept, CandidateStamp);
    SortElements(kept, CandidateStamp);
    forall c
      ensures c in Approved(m, key) <==> c in ApprovedSet(m, key)
    {
      InValuesIffStored(m, c);
      InApprovedIffStored(m, key, c);
    }
    IncreasingInQueryOrder(Approved(m, key));
  }

  /** The score of a set of votes: they are listed in strict (window end, id) order, then counted and hashed. */
  ghost predicate Tallies(score: EpochScore, key: ScoreKey, approved: set<Candidate>) {
    exists listed :: Increasing(listed, CandidateStamp) && Elements(listed) == approved &&
        score == EpochScoreFor(key, listed)
  }

  lemma RecomputedTallies(m: Maps, key: ScoreKey)
    requires Coherent(m)
    ensures Tallies(Recomputed(m, key), key, ApprovedSet(m, key))
  {
    hide EpochScoreFor, ApprovedSet, Approved;
    ApprovedIsSorted(m, key);
    assert Recomputed(m, key) == EpochScoreFor(key, Approved(m, key));
  }

  lemma InApprovedIffStored(m: Maps, key: ScoreKey, c: Candidate)
    requires Coherent(m)
    ensures c in ApprovedSet(m, key) <==>
              c.id in m.candidates.entries && m.candidates.entries[c.id] == c && Counts(m, key, c)
  {
  }

  /** The order in which candidates were approved, or entered the maps, leaves no trace. */
  lemma {:induction false} SameApprovedSameScore(m: Maps, n: Maps, key: ScoreKey)
    requires Coherent(m) && Coherent(n)
    requires ApprovedSet(m, key) == ApprovedSet(n, key)
    ensures Approved(m, key) == Approved(n, key) && Recomputed(m, key) == Recomputed(n, key)
  {
    ApprovedIsSorted(m, key);
    ApprovedIsSorted(n, key);
    IncreasingIsUnique(Approved(m, key), Approved(n, key), CandidateStamp);
  }

  /** The cache agrees with plain recomputation: there is a score exactly where something is approved. */
  ghost predicate UpToDate(m: Maps, key: ScoreKey) {
    && (key in m.scores.entries <==> ApprovedSet(m, key) != {})
    && (key in m.scores.entries ==> m.scores.entries[key] == Recomputed(m, key))
  }

  ghost predicate Consistent(m: Maps) {
    forall key :: Aligned(key) ==> UpToDate(m, key)
  }

  // ---- What a decision says ----

  /** The first decision with the id is found, and none only where there is none. */
  lemma {:induction false} FindsFirstDecision(decisions: seq<Decision>, id: Id)
    ensures match FindDecision(decisions, id)
            case None => forall i :: 0 <= i < |decisions| ==> decisions[i].id != id
            case Some(d) => exists i :: 0 <= i < |decisions| && decisions[i] == d && d.id == id
                              && forall j :: 0 <= j < i ==> decisions[j].id != id
  {
    if decisions != [] && decisions[0].id != id {
      FindsFirstDecision(decisions[1..], id);
      if FindDecision(decisions[1..], id).Some? {
        var d := FindDecision(decisions[1..], id).value;
        var i :| 0 <= i < |decisions[1..]| && decisions[1..][i] == d && d.id == id
                   && forall j :: 0 <= j < i ==> decisions[1..][j].id != id;
        assert decisions[i + 1] == d;
        assert forall j :: 0 < j < i + 1 ==> decisions[j] == decisions[1..][j - 1];
      } else {
        assert forall j :: 0 < j < |decisions| ==> decisions[j] == decisions[1..][j - 1];
      }
    }
  }

  /** So for candidates. */
  lemma {:induction false} FindsFirstCandidate(stored: seq<Candidate>, id: Id)
    ensures match FindCandidate(stored, id)
            case None => forall i :: 0 <= i < |stored| ==> stored[i].id != id
            case Some(c) => exists i :: 0 <= i < |stored| && stored[i] == c && c.id == id
                              && forall j :: 0 <= j < i ==> stored[j].id != id
  {
    if stored != [] && stored[0].id != id {
      FindsFirstCandidate(stored[1..], id);
      if FindCandidate(stored[1..], id).Some? {
        var c := FindCandidate(stored[1..], id).value;
        var i :| 0 <= i < |stored[1..]| && stored[1..][i] == c && c.id == id
                   && forall j :: 0 <= j < i ==> stored[1..][j].id != id;
        assert stored[i + 1] == c;
        assert forall j :: 0 < j < i + 1 ==> stored[j] == stored[1..][j - 1];
      } else {
        assert forall j :: 0 < j < |stored| ==> stored[j] == stored[1..][j - 1];
      }
    }
  }

  lemma {:induction false} FindsTheOne(decisions: seq<Decision>, i: nat)
    requires i < |decisions| && forall j :: 0 <= j < |decisions| && j != i ==> decisions[j].id != decisions[i].id
    ensures FindDecision(decisions, decisions[i].id) == Some(decisions[i])
  {
    if i > 0 {
      assert decisions[0].id != decisions[i].id;
      FindsTheOne(decisions[1..], i - 1);
    }
  }

  /** Under a new id the decision on a candidate is found by that id: it is the gate's verdict on the candidate's
      confidence, approval from 8500 on and escalation from 5000 on, without a review. */
  lemma {:induction false} DecisionIsFound(m: Maps, c: Candidate, decisionId: Id)
    requires Coherent(m) && forall id :: id in m.decisions.entries ==> m.decisions.entries[id].id != decisionId
    ensures var found := FindDecision(Decided(m, c, decisionId).decisions.Values(), decisionId);
            && found.Some? && found.value.id == decisionId && found.value.candidateId == c.id
            && found.value.confidence == c.confidence && found.value.review.None?
            && (found.value.verdict == Approve <==> c.confidence >= 8500)
            && (found.value.verdict == Escalate <==> 5000 <= c.confidence < 8500)
  {
    var later := Decided(m, c, decisionId).decisions;
    assert c.id in later.order;
    var i: nat :| i < |later.order| && later.order[i] == c.id;
    forall j | 0 <= j < |later.order| && j != i
      ensures later.Values()[j].id != decisionId
    {
      assert later.order[j] in later.order && later.order[j] != c.id;
    }
    hide FindDecision;
    FindsTheOne(later.Values(), i);
  }

  /** A review keeps the decision's id, candidate and confidence, sets the verdict, and records the verdict it found,
      the one it gave and the note; no other decision changes. */
  lemma ReviewIsRecorded(m: Maps, stored: seq<Candidate>, d: Decision, verdict: Verdict, note: string)
    ensures var later := Resolved(m, stored, d, verdict, note).decisions.entries;
            && d.candidateId in later
            && later[d.candidateId] == Decision(d.id, d.candidateId, d.confidence, verdict,
                Some(Review(d.verdict, verdict, note)))
            && forall id :: id != d.candidateId ==>
                 (id in later <==> id in m.decisions.entries) && (id in later ==> later[id] == m.decisions.entries[id])
  {
    hide Recomputed, FindCandidate;
  }
}
