/** Concurrent runs of the memory-mode pipeline: operations interleave at their await points. */
module PipelineRuns {
  import opened Collections
  import opened Domain
  import opened Pipeline
  import opened Scores

  /** What an operation in flight still has to do. */
  datatype Task =
    | OwesScore(c: Candidate)
    | AwaitsLookup(candidateId: Id, verdict: Verdict)
    | AwaitsApply(c: Candidate, verdict: Verdict)

  /** The maps, the candidates recorded by ingestion and sweeps, and the operations in flight. */
  datatype Machine = Machine(maps: Maps, stored: map<Id, Candidate>, tasks: map<nat, Task>)

  const START := Machine(EMPTY, map[], map[])

  datatype Op =
    | Record(c: Candidate)
    | Submit(task: nat, c: Candidate, decisionId: Id, mode: Mode)
    | Score(task: nat)
    | Rule(task: nat, decisionId: Id, verdict: Verdict, note: string)
    | Lookup(task: nat)
    | Apply(task: nat)

  /** Candidate ids are new when recorded, and each recorded candidate enters the pipeline once. */
  ghost predicate Enabled(s: Machine, op: Op) {
    match op
    case Record(c) => c.id !in s.stored
    case Submit(t, c, _, _) => t !in s.tasks && c.id in s.stored && s.stored[c.id] == c &&
        c.id !in s.maps.decisions.entries
    case Score(t) => t in s.tasks && s.tasks[t].OwesScore?
    case Rule(t, d, v, _) => t !in s.tasks && v != Escalate && FindDecision(s.maps.decisions.Values(), d).Some?
    case Lookup(t) => t in s.tasks && s.tasks[t].AwaitsLookup?
    case Apply(t) => t in s.tasks && s.tasks[t].AwaitsApply?
  }

  ghost function Done(tasks: map<nat, Task>, t: nat): map<nat, Task> {
    tasks - {t}
  }

  ghost function Next(s: Machine, op: Op): Machine
    requires Enabled(s, op)
  {
    match op
    case Record(c) => s.(stored := s.stored[c.id := c])
    case Submit(t, c, d, mode) =>
      Machine(Decided(s.maps, c, d), s.stored,
              if DecisionForConfidence(c.confidence) == Approve && !IsPreview(mode) then s.tasks[t := OwesScore(c)]
                  else s.tasks)
    case Score(t) => Machine(Rescored(s.maps, s.tasks[t].c), s.stored, Done(s.tasks, t))
    case Rule(t, id, v, note) =>
      var d := FindDecision(s.maps.decisions.Values(), id).value;
      Machine(Ruled(s.maps, d, v, note), s.stored, s.tasks[t := AwaitsLookup(d.candidateId, v)])
    case Lookup(t) =>
      var id := s.tasks[t].candidateId;
      s.(tasks := if id in s.stored then s.tasks[t := AwaitsApply(s.stored[id], s.tasks[t].verdict)]
          else Done(s.tasks, t))
    case Apply(t) => Machine(Applied(s.maps, s.tasks[t].c, s.tasks[t].verdict), s.stored, Done(s.tasks, t))
  }

  /** No approval is previewed, and nothing approved is rejected. */
  ghost predicate Proper(s: Machine, op: Op)
    requires Enabled(s, op)
  {
    match op
    case Submit(_, c, _, mode) => !(IsPreview(mode) && DecisionForConfidence(c.confidence) == Approve)
    case Rule(_, id, v, _) => FindDecision(s.maps.decisions.Values(), id).value.verdict == Approve ==> v == Approve
    case _ => true
  }

  ghost predicate IsProperRun(s: Machine, ops: seq<Op>)
    decreases |ops|
  {
    ops == [] || (Enabled(s, ops[0]) && Proper(s, ops[0]) && IsProperRun(Next(s, ops[0]), ops[1..]))
  }

  ghost function After(s: Machine, ops: seq<Op>): Machine
    requires IsProperRun(s, ops)
    decreases |ops|
  {
    if ops == [] then s else After(Next(s, ops[0]), ops[1..])
  }

  // ---- How a step changes the approved sets ----

  lemma FoundIsStored(m: Maps, id: Id)
    requires Coherent(m) && FindDecision(m.decisions.Values(), id).Some?
    ensures var d := FindDecision(m.decisions.Values(), id).value;
            d.candidateId in m.decisions.entries && m.decisions.entries[d.candidateId] == d && d.id == id
  {
    hide FindDecision;
    var all := m.decisions.Values();
    FoundIsIn(all, id);
    var d := FindDecision(all, id).value;
    var i: nat :| i < |all| && all[i] == d;
    DecisionUnderItsId(m, i);
  }

  lemma DecisionUnderItsId(m: Maps, i: nat)
    requires Coherent(m) && i < |m.decisions.order|
    ensures var d := m.decisions.Values()[i];
            d.candidateId in m.decisions.entries && m.decisions.entries[d.candidateId] == d
  {
    var id := m.decisions.order[i];
    assert id in m.decisions.order;
    assert m.decisions.Values()[i] == m.decisions.entries[id];
    assert m.decisions.entries[id].candidateId == id;
  }

  lemma {:induction false} FoundIsIn(all: seq<Decision>, id: Id)
    requires FindDecision(all, id).Some?
    ensures FindDecision(all, id).value in all && FindDecision(all, id).value.id == id
  {
    if all[0].id != id {
      FoundIsIn(all[1..], id);
    }
  }

  lemma DecidedApproves(m: Maps, c: Candidate, decisionId: Id, key: ScoreKey)
    requires Coherent(m) && c.id !in m.decisions.entries
    ensures Coherent(Decided(m, c, decisionId))
    ensures ApprovedSet(Decided(m, c, decisionId), key) ==
            ApprovedSet(m, key) + if DecisionForConfidence(c.confidence) == Approve && InEpoch(key, c) then {c} else {}
  {
    hide InEpoch, DecisionForConfidence;
    var later := Decided(m, c, decisionId);
    assert c.id !in m.candidates.entries.Keys;
    forall x
      ensures x in ApprovedSet(later, key) <==>
              x in ApprovedSet(m, key) || (x == c && DecisionForConfidence(c.confidence) == Approve && InEpoch(key, c))
    {
      DecidedCounts(m, c, decisionId, key, x);
    }
  }

  lemma DecidedCounts(m: Maps, c: Candidate, decisionId: Id, key: ScoreKey, x: Candidate)
    requires Coherent(m) && Coherent(Decided(m, c, decisionId)) && c.id !in m.candidates.entries
    ensures x in ApprovedSet(Decided(m, c, decisionId), key) <==>
            x in ApprovedSet(m, key) || (x == c && DecisionForConfidence(c.confidence) == Approve && InEpoch(key, c))
  {
    hide InEpoch, DecisionForConfidence, ApprovedSet;
    InApprovedIffStored(Decided(m, c, decisionId), key, x);
    InApprovedIffStored(m, key, x);
    hide Coherent;
  }

  lemma RuledApproves(m: Maps, d: Decision, verdict: Verdict, note: string, key: ScoreKey)
    requires Coherent(m) && d.candidateId in m.decisions.entries && m.decisions.entries[d.candidateId] == d
    ensures Coherent(Ruled(m, d, verdict, note))
    ensures var c := m.candidates.entries[d.candidateId];
            ApprovedSet(Ruled(m, d, verdict, note), key) ==
            ApprovedSet(m, key) - {c} + if verdict == Approve && InEpoch(key, c) then {c} else {}
  {
    hide InEpoch;
    assert d.candidateId in m.candidates.entries.Keys;
    var c := m.candidates.entries[d.candidateId];
    var later := Ruled(m, d, verdict, note);
    forall x
      ensures x in ApprovedSet(later, key) <==>
              (x in ApprovedSet(m, key) && x != c) || (x == c && verdict == Approve && InEpoch(key, c))
    {
      InApprovedIffStored(later, key, x);
      InApprovedIffStored(m, key, x);
    }
  }

  lemma RescoredApproves(m: Maps, c: Candidate, key: ScoreKey)
    requires Coherent(m)
    ensures Coherent(Rescored(m, c))
    ensures ApprovedSet(Rescored(m, c), key) == ApprovedSet(m, key)
    ensures Recomputed(Rescored(m, c), key) == Recomputed(m, key)
  {
    var later := Rescored(m, c);
    forall x
      ensures x in ApprovedSet(later, key) <==> x in ApprovedSet(m, key)
    {
      InApprovedIffStored(later, key, x);
      InApprovedIffStored(m, key, x);
    }
    SameApprovedSameScore(m, later, key);
  }

  lemma HoldingAgainIsIdle(m: Maps, c: Candidate, verdict: Verdict)
    requires c.id in m.candidates.entries && m.candidates.entries[c.id] == c
    ensures Applied(m, c, verdict) == if verdict == Approve then Rescored(m, c) else m
  {
    assert m.candidates.entries[c.id := c] == m.candidates.entries;
    assert Put(m.candidates, c.id, c) == m.candidates;
  }

  /** Where neither the approved set nor the stored score changes, the cache stays as good as it was. */
  lemma UntouchedStaysUpToDate(m: Maps, later: Maps, key: ScoreKey)
    requires Coherent(m) && Coherent(later)
    requires ApprovedSet(m, key) == ApprovedSet(later, key)
    requires key in later.scores.entries <==> key in m.scores.entries
    requires key in m.scores.entries ==> later.scores.entries[key] == m.scores.entries[key]
    ensures UpToDate(later, key) <==> UpToDate(m, key)
  {
    SameApprovedSameScore(m, later, key);
  }

  lemma RescoringUpdates(m: Maps, c: Candidate)
    requires Coherent(m)
    requires c.id in m.candidates.entries && m.candidates.entries[c.id] == c && IsApproved(m, c.id)
    ensures UpToDate(Rescored(m, c), KeyOf(c))
  {
    var key := KeyOf(c);
    FloorBrackets(c.windowEnd);
    RescoredApproves(m, c, key);
    InApprovedIffStored(m, key, c);
  }

  lemma RescoringSpares(m: Maps, c: Candidate, key: ScoreKey)
    requires Coherent(m) && key != KeyOf(c)
    ensures UpToDate(Rescored(m, c), key) <==> UpToDate(m, key)
  {
    RescoredApproves(m, c, key);
    UntouchedStaysUpToDate(m, Rescored(m, c), key);
  }

  // ---- The invariant ----

  ghost predicate TaskHolds(s: Machine, t: Task) {
    match t
    case OwesScore(c) => HeldApproved(s.maps, c)
    case AwaitsLookup(id, v) => id in s.maps.candidates.entries && (v == Approve ==> IsApproved(s.maps, id))
    case AwaitsApply(c, v) =>
      && c.id in s.maps.candidates.entries && s.maps.candidates.entries[c.id] == c
      && (v == Approve ==> IsApproved(s.maps, c.id))
  }

  ghost predicate HeldApproved(m: Maps, c: Candidate) {
    c.id in m.candidates.entries && m.candidates.entries[c.id] == c && IsApproved(m, c.id)
  }

  /** The task will rescore this zone and epoch. */
  ghost predicate TaskOwes(s: Machine, t: Task, key: ScoreKey) {
    match t
    case OwesScore(c) => KeyOf(c) == key
    case AwaitsLookup(id, v) => v == Approve && id in s.maps.candidates.entries &&
        KeyOf(s.maps.candidates.entries[id]) == key
    case AwaitsApply(c, v) => v == Approve && KeyOf(c) == key
  }

  ghost predicate Owed(s: Machine, key: ScoreKey) {
    exists t :: t in s.tasks && TaskOwes(s, s.tasks[t], key)
  }

  ghost predicate StoredAgree(s: Machine) {
    forall id :: id in s.maps.candidates.entries ==> id in s.stored && s.stored[id] == s.maps.candidates.entries[id]
  }

  ghost predicate TasksHold(s: Machine) {
    forall t :: t in s.tasks ==> TaskHolds(s, s.tasks[t])
  }

  ghost predicate CacheOwed(s: Machine) {
    forall key :: Aligned(key) ==> UpToDate(s.maps, key) || Owed(s, key)
  }

  /** A pending commitment stands beside every score, and nowhere else. */
  ghost predicate Committed(m: Maps) {
    && m.commitments.entries.Keys == m.scores.entries.Keys
    && (forall key :: key in m.scores.entries ==> Aligned(key) && m.scores.entries[key].key == key)
    && (forall key :: key in m.commitments.entries ==>
          m.commitments.entries[key] == Commitment(key, Pending, None, None, None))
  }

  /** An approval is either over the threshold or carries the record of a review. */
  ghost predicate Warranted(m: Maps) {
    forall id :: id in m.decisions.entries && m.decisions.entries[id].verdict == Approve ==>
      m.decisions.entries[id].confidence >= AUTO_APPROVE
      || (m.decisions.entries[id].review.Some? && m.decisions.entries[id].review.value.decision == Approve)
  }

  ghost predicate Inv(s: Machine) {
    && Coherent(s.maps) && Committed(s.maps) && Warranted(s.maps)
    && StoredAgree(s) && TasksHold(s) && CacheOwed(s)
  }

  lemma RescoredCommits(m: Maps, c: Candidate)
    requires Committed(m)
    ensures Committed(Rescored(m, c))
  {
    hide Recomputed;
    FloorBrackets(c.windowEnd);
    RecomputedKey(m, KeyOf(c));
  }

  lemma RecomputedKey(m: Maps, key: ScoreKey)
    ensures Recomputed(m, key).key == key
  {
  }

  lemma RecordKeepsInv(s: Machine, c: Candidate)
    requires Inv(s) && c.id !in s.stored
    ensures Inv(s.(stored := s.stored[c.id := c]))
  {
    hide UpToDate, Coherent, Committed, Warranted, TaskHolds, TaskOwes;
    var later := s.(stored := s.stored[c.id := c]);
    forall t | t in s.tasks
      ensures TaskHolds(later, s.tasks[t])
    {
      TaskIgnoresStore(s, later, s.tasks[t], ScoreKey(0, 0));
    }
    forall key | Aligned(key)
      ensures UpToDate(later.maps, key) || Owed(later, key)
    {
      OwedIgnoresStore(s, later, key);
    }
  }

  lemma TaskIgnoresStore(s: Machine, later: Machine, t: Task, key: ScoreKey)
    requires later.maps.candidates == s.maps.candidates && later.maps.decisions == s.maps.decisions
    ensures TaskHolds(later, t) <==> TaskHolds(s, t)
    ensures TaskOwes(later, t, key) <==> TaskOwes(s, t, key)
  {
  }

  lemma OwedIgnoresStore(s: Machine, later: Machine, key: ScoreKey)
    requires later.maps.candidates == s.maps.candidates && later.maps.decisions == s.maps.decisions &&
        later.tasks == s.tasks
    ensures Owed(later, key) <==> Owed(s, key)
  {
  }

  // Submitting a candidate.

  lemma SubmitKeepsTask(s: Machine, c: Candidate, d: Id, t: Task, key: ScoreKey)
    requires Coherent(s.maps) && c.id !in s.maps.decisions.entries
    requires TaskHolds(s, t)
    ensures var later := s.(maps := Decided(s.maps, c, d));
            TaskHolds(later, t) && (TaskOwes(s, t, key) ==> TaskOwes(later, t, key))
  {
    assert c.id !in s.maps.candidates.entries.Keys;
  }

  lemma SubmitKeepsKey(s: Machine, t: nat, c: Candidate, d: Id, key: ScoreKey)
    requires Inv(s) && Enabled(s, Submit(t, c, d, Live)) && Aligned(key)
    ensures var later := Next(s, Submit(t, c, d, Live)); UpToDate(later.maps, key) || Owed(later, key)
  {
    hide UpToDate, TaskHolds, DecisionForConfidence, InEpoch, TaskOwes;
    var later := Next(s, Submit(t, c, d, Live));
    DecidedApproves(s.maps, c, d, key);
    OneEpochEach(key, c);
    if DecisionForConfidence(c.confidence) == Approve && KeyOf(c) == key {
      OwesItsKey(later, c);
      assert later.tasks[t] == OwesScore(c);
    } else {
      assert ApprovedSet(later.maps, key) == ApprovedSet(s.maps, key);
      UntouchedStaysUpToDate(s.maps, later.maps, key);
      if !UpToDate(s.maps, key) {
        var u :| u in s.tasks && TaskOwes(s, s.tasks[u], key);
        SubmitKeepsTask(s, c, d, s.tasks[u], key);
        TaskIgnoresStore(s.(maps := Decided(s.maps, c, d)), later, s.tasks[u], key);
        assert later.tasks[u] == s.tasks[u];
      }
    }
  }

  lemma OwesItsKey(s: Machine, c: Candidate)
    ensures TaskOwes(s, OwesScore(c), KeyOf(c))
  {
  }

  lemma SubmitKeepsTasks(s: Machine, t: nat, c: Candidate, d: Id)
    requires Inv(s) && Enabled(s, Submit(t, c, d, Live))
    ensures TasksHold(Next(s, Submit(t, c, d, Live)))
  {
    hide TaskHolds, CacheOwed, DecisionForConfidence;
    var later := Next(s, Submit(t, c, d, Live));
    forall u | u in later.tasks
      ensures TaskHolds(later, later.tasks[u])
    {
      if u in s.tasks && later.tasks[u] == s.tasks[u] {
        SubmitKeepsTask(s, c, d, s.tasks[u], ScoreKey(0, 0));
        TaskIgnoresStore(s.(maps := Decided(s.maps, c, d)), later, s.tasks[u], ScoreKey(0, 0));
      } else {
        SubmittedHolds(later, c, d, s.maps);
      }
    }
  }

  lemma SubmittedHolds(later: Machine, c: Candidate, d: Id, m: Maps)
    requires later.maps == Decided(m, c, d) && DecisionForConfidence(c.confidence) == Approve
    ensures TaskHolds(later, OwesScore(c))
  {
  }

  lemma DecidedKeepsRecords(s: Machine, c: Candidate, d: Id)
    requires Committed(s.maps) && Warranted(s.maps) && StoredAgree(s) && c.id in s.stored && s.stored[c.id] == c
    ensures var m := Decided(s.maps, c, d); Committed(m) && Warranted(m) && StoredAgree(s.(maps := m))
  {
  }

  lemma SubmitKeepsInv(s: Machine, t: nat, c: Candidate, d: Id)
    requires Inv(s) && Enabled(s, Submit(t, c, d, Live))
    ensures Inv(Next(s, Submit(t, c, d, Live)))
  {
    hide UpToDate, Owed, TaskHolds, Decided, Committed, Warranted, Coherent, ApprovedSet, DecisionForConfidence;
    var later := Next(s, Submit(t, c, d, Live));
    DecidedKeepsRecords(s, c, d);
    DecidedApproves(s.maps, c, d, ScoreKey(0, 0));
    SubmitKeepsTasks(s, t, c, d);
    forall key | Aligned(key)
      ensures UpToDate(later.maps, key) || Owed(later, key)
    {
      SubmitKeepsKey(s, t, c, d, key);
    }
  }

  // Rescoring.

  lemma ScoreKeepsKey(s: Machine, t: nat, c: Candidate, key: ScoreKey)
    requires Coherent(s.maps) && CacheOwed(s) && Aligned(key)
    requires t in s.tasks && (forall k :: TaskOwes(s, s.tasks[t], k) ==> k == KeyOf(c))
    requires HeldApproved(s.maps, c)
    ensures var later := Machine(Rescored(s.maps, c), s.stored, Done(s.tasks, t));
            UpToDate(later.maps, key) || Owed(later, key)
  {
    hide UpToDate, TaskOwes, Rescored;
    var later := Machine(Rescored(s.maps, c), s.stored, Done(s.tasks, t));
    if key == KeyOf(c) {
      RescoringUpdates(s.maps, c);
    } else {
      RescoringSpares(s.maps, c, key);
      if !UpToDate(s.maps, key) {
        var u :| u in s.tasks && TaskOwes(s, s.tasks[u], key);
        RescoredKeepsMaps(s.maps, c);
        TaskIgnoresStore(s, later, s.tasks[u], key);
        assert u in later.tasks;
      }
    }
  }

  lemma RescoredKeepsMaps(m: Maps, c: Candidate)
    ensures Rescored(m, c).candidates == m.candidates && Rescored(m, c).decisions == m.decisions
  {
  }

  lemma ScoringKeepsInv(s: Machine, t: nat, c: Candidate)
    requires Inv(s) && t in s.tasks && (forall k :: TaskOwes(s, s.tasks[t], k) ==> k == KeyOf(c))
    requires HeldApproved(s.maps, c)
    ensures Inv(Machine(Rescored(s.maps, c), s.stored, Done(s.tasks, t)))
  {
    hide UpToDate, Owed, TaskHolds, TasksHold, Rescored, HeldApproved, Coherent, TaskOwes, Committed, Warranted, KeyOf,
        Aligned;
    var later := Machine(Rescored(s.maps, c), s.stored, Done(s.tasks, t));
    RescoredApproves(s.maps, c, KeyOf(c));
    RescoredCommits(s.maps, c);
    RescoredKeepsMaps(s.maps, c);
    RescoredKeepsWarrants(s.maps, c);
    FewerTasksHold(s, later, t);
    forall key | Aligned(key)
      ensures UpToDate(later.maps, key) || Owed(later, key)
    {
      ScoreKeepsKey(s, t, c, key);
    }
  }

  lemma RescoredKeepsWarrants(m: Maps, c: Candidate)
    requires Warranted(m)
    ensures Warranted(Rescored(m, c))
  {
    hide Recomputed;
  }

  lemma FewerTasksHold(s: Machine, later: Machine, t: nat)
    requires TasksHold(s) && later.tasks == Done(s.tasks, t)
    requires later.maps.candidates == s.maps.candidates && later.maps.decisions == s.maps.decisions
    ensures TasksHold(later)
  {
    hide TaskHolds;
    forall u | u in later.tasks
      ensures TaskHolds(later, later.tasks[u])
    {
      TaskIgnoresStore(s, later, s.tasks[u], ScoreKey(0, 0));
    }
  }

  // Ruling on a decision.

  lemma RuleKeepsTask(s: Machine, d: Decision, v: Verdict, note: string, t: Task, key: ScoreKey)
    requires Coherent(s.maps) && d.candidateId in s.maps.decisions.entries &&
        s.maps.decisions.entries[d.candidateId] == d
    requires (d.verdict == Approve ==> v == Approve) && TaskHolds(s, t)
    ensures var later := s.(maps := Ruled(s.maps, d, v, note));
            TaskHolds(later, t) && (TaskOwes(s, t, key) <==> TaskOwes(later, t, key))
  {
  }

  lemma RuleKeepsKey(s: Machine, t: nat, d: Decision, v: Verdict, note: string, key: ScoreKey)
    requires Inv(s) && t !in s.tasks && v != Escalate && Aligned(key)
    requires d.candidateId in s.maps.decisions.entries && s.maps.decisions.entries[d.candidateId] == d
    requires d.verdict == Approve ==> v == Approve
    ensures var later := Machine(Ruled(s.maps, d, v, note), s.stored, s.tasks[t := AwaitsLookup(d.candidateId, v)]);
            UpToDate(later.maps, key) || Owed(later, key)
  {
    hide UpToDate, TaskHolds, TaskOwes, InEpoch;
    var later := Machine(Ruled(s.maps, d, v, note), s.stored, s.tasks[t := AwaitsLookup(d.candidateId, v)]);
    assert d.candidateId in s.maps.candidates.entries.Keys;
    var c := s.maps.candidates.entries[d.candidateId];
    RuledApproves(s.maps, d, v, note, key);
    OneEpochEach(key, c);
    if v == Approve && KeyOf(c) == key {
      AwaitsItsKey(later, d.candidateId);
      assert later.tasks[t] == AwaitsLookup(d.candidateId, v);
    } else {
      UncountedIsNotApproved(s.maps, d, key);
      assert ApprovedSet(later.maps, key) == ApprovedSet(s.maps, key);
      UntouchedStaysUpToDate(s.maps, later.maps, key);
      if !UpToDate(s.maps, key) {
        var u :| u in s.tasks && TaskOwes(s, s.tasks[u], key);
        RuleKeepsTask(s, d, v, note, s.tasks[u], key);
        TaskIgnoresStore(s.(maps := Ruled(s.maps, d, v, note)), later, s.tasks[u], key);
        assert later.tasks[u] == s.tasks[u];
      }
    }
  }

  lemma AwaitsItsKey(s: Machine, id: Id)
    requires id in s.maps.candidates.entries
    ensures TaskOwes(s, AwaitsLookup(id, Approve), KeyOf(s.maps.candidates.entries[id]))
  {
  }

  lemma UncountedIsNotApproved(m: Maps, d: Decision, key: ScoreKey)
    requires Coherent(m) && d.candidateId in m.decisions.entries && m.decisions.entries[d.candidateId] == d
    requires d.candidateId in m.candidates.entries
    requires d.verdict != Approve || !InEpoch(key, m.candidates.entries[d.candidateId])
    ensures m.candidates.entries[d.candidateId] !in ApprovedSet(m, key)
  {
    InApprovedIffStored(m, key, m.candidates.entries[d.candidateId]);
  }

  lemma RuleKeepsTasks(s: Machine, t: nat, d: Decision, v: Verdict, note: string)
    requires Inv(s) && t !in s.tasks && (d.verdict == Approve ==> v == Approve)
    requires d.candidateId in s.maps.decisions.entries && s.maps.decisions.entries[d.candidateId] == d
    ensures TasksHold(Machine(Ruled(s.maps, d, v, note), s.stored, s.tasks[t := AwaitsLookup(d.candidateId, v)]))
  {
    hide TaskHolds, CacheOwed;
    var later := Machine(Ruled(s.maps, d, v, note), s.stored, s.tasks[t := AwaitsLookup(d.candidateId, v)]);
    forall u | u in later.tasks
      ensures TaskHolds(later, later.tasks[u])
    {
      if u == t {
        RuledHolds(s, later, d, v, note);
      } else {
        RuleKeepsTask(s, d, v, note, s.tasks[u], ScoreKey(0, 0));
        TaskIgnoresStore(s.(maps := Ruled(s.maps, d, v, note)), later, s.tasks[u], ScoreKey(0, 0));
      }
    }
  }

  lemma RuledHolds(s: Machine, later: Machine, d: Decision, v: Verdict, note: string)
    requires Coherent(s.maps) && d.candidateId in s.maps.decisions.entries && later.maps == Ruled(s.maps, d, v, note)
    ensures TaskHolds(later, AwaitsLookup(d.candidateId, v))
  {
    assert d.candidateId in s.maps.candidates.entries.Keys;
  }

  lemma RuleKeepsInv(s: Machine, t: nat, id: Id, v: Verdict, note: string)
    requires Inv(s) && Enabled(s, Rule(t, id, v, note)) && Proper(s, Rule(t, id, v, note))
    ensures Inv(Next(s, Rule(t, id, v, note)))
  {
    hide UpToDate, Owed, TaskHolds, FindDecision;
    FoundIsStored(s.maps, id);
    var d := FindDecision(s.maps.decisions.Values(), id).value;
    var later := Next(s, Rule(t, id, v, note));
    RuledApproves(s.maps, d, v, note, ScoreKey(0, 0));
    RuleKeepsTasks(s, t, d, v, note);
    forall key | Aligned(key)
      ensures UpToDate(later.maps, key) || Owed(later, key)
    {
      RuleKeepsKey(s, t, d, v, note, key);
    }
  }

  // Looking the candidate up, and applying the verdict.

  lemma LookupKeepsInv(s: Machine, t: nat)
    requires Inv(s) && Enabled(s, Lookup(t))
    ensures Inv(Next(s, Lookup(t)))
  {
    hide UpToDate, Coherent, Committed, Warranted;
    var later := Next(s, Lookup(t));
    var id, v := s.tasks[t].candidateId, s.tasks[t].verdict;
    assert TaskHolds(s, s.tasks[t]);
    LookedUpHolds(s, id, v);
    forall u | u in later.tasks
      ensures TaskHolds(later, later.tasks[u])
    {
      TaskIgnoresStore(s, later, later.tasks[u], ScoreKey(0, 0));
      if u != t {
        assert TaskHolds(s, s.tasks[u]);
      }
    }
    forall key | Aligned(key)
      ensures UpToDate(later.maps, key) || Owed(later, key)
    {
      if !UpToDate(s.maps, key) {
        var u :| u in s.tasks && TaskOwes(s, s.tasks[u], key);
        LookupKeepsOwing(s, t, u, key);
      }
    }
  }

  lemma LookedUpHolds(s: Machine, id: Id, v: Verdict)
    requires StoredAgree(s) && Coherent(s.maps) && TaskHolds(s, AwaitsLookup(id, v))
    ensures id in s.stored && TaskHolds(s, AwaitsApply(s.stored[id], v))
  {
  }

  lemma LookupKeepsOwing(s: Machine, t: nat, u: nat, key: ScoreKey)
    requires StoredAgree(s) && Coherent(s.maps) && Enabled(s, Lookup(t)) && TaskHolds(s, s.tasks[t])
    requires u in s.tasks && TaskOwes(s, s.tasks[u], key)
    ensures Owed(Next(s, Lookup(t)), key)
  {
    var later := Next(s, Lookup(t));
    assert u in later.tasks && TaskOwes(later, later.tasks[u], key);
  }

  lemma DismissKeepsInv(s: Machine, t: nat)
    requires Inv(s) && t in s.tasks && (forall k :: !TaskOwes(s, s.tasks[t], k))
    ensures Inv(s.(tasks := Done(s.tasks, t)))
  {
    hide UpToDate, Coherent, Committed, Warranted, TaskHolds, TaskOwes;
    var later := s.(tasks := Done(s.tasks, t));
    forall u | u in later.tasks
      ensures TaskHolds(later, later.tasks[u])
    {
      TaskIgnoresStore(s, later, s.tasks[u], ScoreKey(0, 0));
    }
    forall key | Aligned(key)
      ensures UpToDate(later.maps, key) || Owed(later, key)
    {
      if !UpToDate(s.maps, key) {
        var u :| u in s.tasks && TaskOwes(s, s.tasks[u], key);
        TaskIgnoresStore(s, later, s.tasks[u], key);
        assert u in later.tasks;
      }
    }
  }

  lemma ApplyKeepsInv(s: Machine, t: nat)
    requires Inv(s) && Enabled(s, Apply(t))
    ensures Inv(Next(s, Apply(t)))
  {
    hide UpToDate, Coherent, Committed, Warranted, Rescored, Applied;
    var c, v := s.tasks[t].c, s.tasks[t].verdict;
    assert TaskHolds(s, s.tasks[t]);
    HoldingAgainIsIdle(s.maps, c, v);
    if v == Approve {
      ScoringKeepsInv(s, t, c);
    } else {
      DismissKeepsInv(s, t);
    }
  }

  lemma {:induction false} StepKeepsInv(s: Machine, op: Op)
    requires Inv(s) && Enabled(s, op) && Proper(s, op)
    ensures Inv(Next(s, op))
  {
    hide Inv;
    match op
    case Record(c) => RecordKeepsInv(s, c);
    case Submit(t, c, d, mode) =>
      assert Next(s, op) == Next(s, Submit(t, c, d, Live));
      SubmitKeepsInv(s, t, c, d);
    case Score(t) =>
      OwedScoreHolds(s, t);
      ScoringKeepsInv(s, t, s.tasks[t].c);
    case Rule(t, id, v, note) => RuleKeepsInv(s, t, id, v, note);
    case Lookup(t) => LookupKeepsInv(s, t);
    case Apply(t) => ApplyKeepsInv(s, t);
  }

  lemma OwedScoreHolds(s: Machine, t: nat)
    requires Inv(s) && Enabled(s, Score(t))
    ensures HeldApproved(s.maps, s.tasks[t].c)
  {
    assert TaskHolds(s, s.tasks[t]);
  }

  lemma {:induction false} RunKeepsInv(s: Machine, ops: seq<Op>)
    requires Inv(s) && IsProperRun(s, ops)
    ensures Inv(After(s, ops))
    decreases |ops|
  {
    hide Inv, Enabled, Proper, Next;
    if ops != [] {
      StepKeepsInv(s, ops[0]);
      RunKeepsInv(Next(s, ops[0]), ops[1..]);
    }
  }

  lemma StartIsSound()
    ensures Inv(START)
  {
    forall key: ScoreKey
      ensures UpToDate(EMPTY, key)
    {
      assert ApprovedSet(EMPTY, key) == {};
    }
  }

  // ---- Main results ----

  /** Quiescent consistency. However operations interleave at their awaits (no approval previewed, nothing approved
      rejected), a zone and epoch whose score differs from plain recomputation is always owed a rescore by an operation
      in flight; so when none is in flight every score equals recomputation, a zone and epoch has one exactly when
      something in it is approved, and a pending commitment stands beside each. */
  lemma {:induction false} QuiescentConsistency(ops: seq<Op>)
    requires IsProperRun(START, ops)
    ensures var s := After(START, ops);
            && (forall key :: Aligned(key) && !UpToDate(s.maps, key) ==> Owed(s, key))
            && (s.tasks == map[] ==> Consistent(s.maps))
            && Committed(s.maps) && Warranted(s.maps)
  {
    hide UpToDate, Committed, Warranted, After, IsProperRun;
    StartIsSound();
    RunKeepsInv(START, ops);
  }

  /** Confluence of the proof. Two runs that come to rest with the same approved candidates of a zone and epoch hold
      the same score there: the same basis points, the same key, the same object under the evidence hash. */
  lemma {:induction false} SameApprovalsSameProof(ops: seq<Op>, others: seq<Op>, key: ScoreKey)
    requires IsProperRun(START, ops) && IsProperRun(START, others) && Aligned(key)
    requires After(START, ops).tasks == map[] && After(START, others).tasks == map[]
    requires ApprovedSet(After(START, ops).maps, key) == ApprovedSet(After(START, others).maps, key)
    ensures var m, n := After(START, ops).maps, After(START, others).maps;
            && (key in m.scores.entries <==> key in n.scores.entries)
            && (key in m.scores.entries ==> m.scores.entries[key] == n.scores.entries[key])
  {
    hide After, IsProperRun;
    StartIsSound();
    RunKeepsInv(START, ops);
    RunKeepsInv(START, others);
    QuiescentConsistency(ops);
    QuiescentConsistency(others);
    SameApprovedSameScore(After(START, ops).maps, After(START, others).maps, key);
  }

  // ---- Without interleaving ----

  /** A candidate under a new id can be recorded and then submitted, and stays recorded. */
  lemma NewCandidateCanRun(s: Machine, t: nat, c: Candidate, d: Id, mode: Mode)
    requires c.id !in s.stored && c.id !in s.maps.decisions.entries && t !in s.tasks
    ensures Enabled(s, Record(c))
    ensures var recorded := Next(s, Record(c));
            && recorded == Machine(s.maps, s.stored[c.id := c], s.tasks)
            && Enabled(recorded, Submit(t, c, d, mode)) &&
                Next(recorded, Submit(t, c, d, mode)).stored == recorded.stored
  {
    hide Decided;
  }

  /** Run through without interruption, a submission does what processing a candidate does. */
  lemma {:induction false} SubmitRunsThrough(s: Machine, t: nat, c: Candidate, d: Id, mode: Mode)
    requires Enabled(s, Submit(t, c, d, mode))
    ensures var done, one := Machine(Processed(s.maps, c, d, mode), s.stored, s.tasks), Next(s, Submit(t, c, d, mode));
            if DecisionForConfidence(c.confidence) == Approve && !IsPreview(mode)
            then Enabled(one, Score(t)) && Next(one, Score(t)) == done
            else one == done
  {
    hide Decided, Rescored, DecisionForConfidence;
    assert s.tasks[t := OwesScore(c)] - {t} == s.tasks;
  }

  /** And a review does what resolving it does, whatever list the recorded candidates are read in. */
  lemma {:induction false} ReviewRunsThrough(s: Machine, t: nat, id: Id, v: Verdict, note: string,
      stored: seq<Candidate>)
    requires Enabled(s, Rule(t, id, v, note))
    requires forall c :: c in stored <==> c.id in s.stored && s.stored[c.id] == c
    requires forall k :: k in s.stored ==> s.stored[k].id == k
    ensures var d := FindDecision(s.maps.decisions.Values(), id).value;
            var done := Machine(Resolved(s.maps, stored, d, v, note), s.stored, s.tasks);
            var one := Next(s, Rule(t, id, v, note));
            Enabled(one, Lookup(t)) &&
            var two := Next(one, Lookup(t));
            if d.candidateId in s.stored then Enabled(two, Apply(t)) && Next(two, Apply(t)) == done else two == done
  {
    hide Ruled, Applied, FindDecision, FindCandidate;
    var d := FindDecision(s.maps.decisions.Values(), id).value;
    ListedIsStored(s.stored, stored, d.candidateId);
    assert s.tasks[t := AwaitsLookup(d.candidateId, v)] - {t} == s.tasks;
    if d.candidateId in s.stored {
      var c := s.stored[d.candidateId];
      assert s.tasks[t := AwaitsLookup(d.candidateId, v)][t := AwaitsApply(c, v)] - {t} == s.tasks;
    }
  }

  lemma ListedIsStored(stored: map<Id, Candidate>, listed: seq<Candidate>, id: Id)
    requires forall c :: c in listed <==> c.id in stored && stored[c.id] == c
    requires forall k :: k in stored ==> stored[k].id == k
    ensures FindCandidate(listed, id) == if id in stored then Some(stored[id]) else None
  {
    FindsFirstCandidate(listed, id);
    hide FindCandidate;
    if id in stored {
      assert stored[id] in listed;
      var i :| 0 <= i < |listed| && listed[i] == stored[id];
    }
  }
}
