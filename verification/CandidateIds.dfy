/** Whole runs of the store: no two stored candidates share an identifier, as the pipeline's maps require. */
module CandidateIds {
  import opened Agreement
  import opened DetectionLatency
  import opened Domain
  import opened EvidenceStore
  import opened StoreRuns

  /** Operation i draws the identifier: the one of a reading's candidate, or one of a sweep's supply. */
  ghost predicate Draws(op: Op, id: Id) {
    match op
    case Ingest(_, candidateId) => candidateId == id
    case Begin(_, _, uuid) => exists n: nat :: uuid(n) == id
    case RecordNext(_) => false
  }

  /** Identifiers are drawn once: no operation draws what another does, and no supply repeats itself. */
  ghost predicate DrawnOnce(ops: seq<Op>) {
    && (forall i, j, id :: 0 <= i < j < |ops| && Draws(ops[i], id) ==> !Draws(ops[j], id))
    && (forall i :: 0 <= i < |ops| && ops[i].Begin? ==> Injective(ops[i].uuid))
  }

  /** Where a stored candidate comes from: its reading's ingestion, or the sweep that sighted it. */
  ghost predicate ComesFrom(ops: seq<Op>, i: int, key: CandidateKey, c: Candidate)
    requires StoreRuns.IsRun(EMPTY, ops)
  {
    && 0 <= i < |ops|
    && match key
       case ReadingKey(_, _, _) =>
         ops[i].Ingest? && CandidateKeyFor(ops[i].event) == key && c.id == ops[i].candidateId
       case SilenceKey(zone, s) => Sights(ops, i, c) && c.zoneId == zone && c.windowStart == s
  }

  lemma NewReadingIsIngested(st: State, op: Op, key: CandidateKey)
    requires Enabled(st, op) && key.ReadingKey? && key !in st.store.candidates.entries
    requires key in Next(st, op).store.candidates.entries
    ensures op.Ingest? && CandidateKeyFor(op.event) == key
    ensures Next(st, op).store.candidates.entries[key].id == op.candidateId
  {
    hide AgreementOf, SightingsOf, ApplyAgreement;
  }

  lemma {:induction false} ReadingWasIngested(ops: seq<Op>, k: nat, key: CandidateKey)
    requires IsRun(EMPTY, ops) && k <= |ops| && key.ReadingKey? && key in StoreAt(ops, k).candidates.entries
    ensures exists i :: 0 <= i < k && ComesFrom(ops, i, key, StoreAt(ops, k).candidates.entries[key])
  {
    hide StateAt, Enabled, Next, IsRun, After, Extends;
    if k == 0 {
      StateAtStart(ops);
    } else {
      StateNext(ops, k - 1);
      var before := StateAt(ops, k - 1);
      if key in before.store.candidates.entries {
        ReadingWasIngested(ops, k - 1, key);
        StoresExtend(ops, k - 1, k);
        ExtendsKeeps(before.store, StoreAt(ops, k), key);
      } else {
        NewReadingIsIngested(before, ops[k - 1], key);
        assert ComesFrom(ops, k - 1, key, StoreAt(ops, k).candidates.entries[key]);
      }
    }
  }

  lemma StoredComesFrom(ops: seq<Op>, k: nat, key: CandidateKey) returns (i: nat)
    requires IsRun(EMPTY, ops) && k <= |ops| && key in StoreAt(ops, k).candidates.entries
    ensures ComesFrom(ops, i, key, StoreAt(ops, k).candidates.entries[key])
  {
    hide StateAt, Sights;
    match key
    case ReadingKey(_, _, _) =>
      ReadingWasIngested(ops, k, key);
      i :| 0 <= i < k && ComesFrom(ops, i, key, StoreAt(ops, k).candidates.entries[key]);
    case SilenceKey(zone, s) =>
      RecordedWasSighted(ops, k, zone, s);
      i :| 0 <= i < k && Sights(ops, i, StoreAt(ops, k).candidates.entries[key]);
  }

  /** The place of a sighted candidate among those of its sweep is that of its identifier in the supply. */
  lemma SightedDrawsItsId(ops: seq<Op>, i: nat, c: Candidate) returns (n: nat)
    requires IsRun(EMPTY, ops) && Sights(ops, i, c)
    ensures var cs := SweepSightings(StoreAt(ops, i), ops[i].now, ops[i].uuid);
            n < |cs| && cs[n] == c && c.id == ops[i].uuid(n)
    ensures Draws(ops[i], c.id)
  {
    hide StateAt, Sightings, GroupByZone;
    var st, now, uuid := StoreAt(ops, i), ops[i].now, ops[i].uuid;
    var byZone := GroupByZone(SweepEvidence(st, now));
    var cs := SweepSightings(st, now, uuid);
    n :| n < |cs| && cs[n] == c;
    SightingTakesItsId(byZone, |byZone.order|, now, uuid, n);
  }

  lemma ComesWithItsId(ops: seq<Op>, i: nat, key: CandidateKey, c: Candidate)
    requires IsRun(EMPTY, ops) && ComesFrom(ops, i, key, c)
    ensures Draws(ops[i], c.id)
  {
    hide StateAt, SweepSightings;
    if key.SilenceKey? {
      var n := SightedDrawsItsId(ops, i, c);
    }
  }

  lemma SameIdSameSighting(ops: seq<Op>, i: nat, c: Candidate, d: Candidate)
    requires IsRun(EMPTY, ops) && DrawnOnce(ops) && Sights(ops, i, c) && Sights(ops, i, d) && c.id == d.id
    ensures c == d
  {
    hide StateAt, SweepSightings, IsRun;
    var m := SightedDrawsItsId(ops, i, c);
    var n := SightedDrawsItsId(ops, i, d);
    if m != n {
      SuppliesDiffer(ops[i].uuid, m, n);
    }
  }

  lemma DrawnByOne(ops: seq<Op>, i: nat, j: nat, id: Id)
    requires DrawnOnce(ops) && i < |ops| && j < |ops| && Draws(ops[i], id) && Draws(ops[j], id)
    ensures i == j
  {
    hide Draws;
  }

  /** In every reachable state, candidates stored under different keys have different identifiers. */
  lemma {:induction false} StoredIdsDiffer(ops: seq<Op>, k: nat, a: CandidateKey, b: CandidateKey)
    requires IsRun(EMPTY, ops) && DrawnOnce(ops) && k <= |ops| && a != b
    requires a in StoreAt(ops, k).candidates.entries && b in StoreAt(ops, k).candidates.entries
    ensures StoreAt(ops, k).candidates.entries[a].id != StoreAt(ops, k).candidates.entries[b].id
  {
    hide StoreAt, SweepSightings, IsRun, DrawnOnce, Draws;
    var c, d := StoreAt(ops, k).candidates.entries[a], StoreAt(ops, k).candidates.entries[b];
    var i := StoredComesFrom(ops, k, a);
    var j := StoredComesFrom(ops, k, b);
    ComesWithItsId(ops, i, a, c);
    ComesWithItsId(ops, j, b, d);
    if c.id == d.id {
      DrawnByOne(ops, i, j, c.id);
      if a.SilenceKey? && b.SilenceKey? {
        SameIdSameSighting(ops, i, c, d);
      }
    }
  }

  /** Nor do any two candidates that the pipeline is run on by sweeps. */
  lemma {:induction false} PipedIdsDiffer(ops: seq<Op>, i: nat, j: nat)
    requires IsRun(EMPTY, ops) && DrawnOnce(ops) && i < j < |After(EMPTY, ops).piped|
    ensures After(EMPTY, ops).piped[i].candidate.id != After(EMPTY, ops).piped[j].candidate.id
  {
    var st := After(EMPTY, ops);
    EmptyIsSound();
    RunKeepsInv(EMPTY, ops);
    PipedUnderTheirKeys(st, i, j);
    assert ops[..|ops|] == ops;
    assert StateAt(ops, |ops|) == st;
    hide IsRun, After, DrawnOnce, Inv, StateAt;
    StoredIdsDiffer(ops, |ops|, HeartbeatGapKey(st.piped[i].candidate), HeartbeatGapKey(st.piped[j].candidate));
  }

  lemma PipedUnderTheirKeys(st: State, i: nat, j: nat)
    requires Inv(st) && i < j < |st.piped|
    ensures var a, b := HeartbeatGapKey(st.piped[i].candidate), HeartbeatGapKey(st.piped[j].candidate);
            && a != b && a in st.store.candidates.entries && b in st.store.candidates.entries
            && st.store.candidates.entries[a] == st.piped[i].candidate
            && st.store.candidates.entries[b] == st.piped[j].candidate
  {
    hide Sound, WasReal, Grounded;
    assert st.piped[i] in st.piped && st.piped[j] in st.piped;
  }
}
