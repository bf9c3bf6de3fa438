/** Runs of the evidence store: any interleaving of ingests with sweeps that record one candidate at a time. */
module StoreRuns {
  import opened Agreement
  import opened Collections
  import opened Domain
  import opened EvidenceStore
  import opened Heartbeat
  import opened Silence
  import opened SilenceOverTime

  /** A detected candidate on its way to being recorded, with what its sweep saw. */
  datatype Sighting = Sighting(candidate: Candidate, seen: seq<Evidence>, now: Instant)

  /** The store, the sweeps in flight, and the candidates handed to the pipeline so far. */
  datatype State = State(store: Store, inFlight: map<nat, seq<Sighting>>, piped: seq<Sighting>)

  const EMPTY := State(Store(EmptyMap(), EmptyMap()), map[], [])

  /** A sweep reads its evidence at once (Begin) and then records its candidates one by one (RecordNext);
      anything may happen in between. */
  datatype Op =
    | Ingest(event: Evidence, candidateId: Id)
    | Begin(sweep: nat, now: Instant, uuid: nat -> Id)
    | RecordNext(sweep: nat)

  ghost predicate Enabled(st: State, op: Op) {
    match op
    case Ingest(e, _) => FreshId(st.store, e.id)
    case Begin(k, _, _) => k !in st.inFlight
    case RecordNext(k) => k in st.inFlight && st.inFlight[k] != []
  }

  ghost function SightingsOf(st: Store, now: Instant, uuid: nat -> Id): seq<Sighting> {
    var cs := SweepSightings(st, now, uuid);
    seq(|cs|, i requires 0 <= i < |cs| => Sighting(cs[i], st.Events(), now))
  }

  ghost function Next(st: State, op: Op): State
    requires Enabled(st, op)
  {
    match op
    case Ingest(e, id) => st.(store := Ingested(st.store, e, id))
    case Begin(k, now, uuid) => st.(inFlight := st.inFlight[k := SightingsOf(st.store, now, uuid)])
    case RecordNext(k) =>
      var head := st.inFlight[k][0];
      State(Recorded(st.store, head.candidate),
            st.inFlight[k := st.inFlight[k][1..]],
            if IsNew(st.store, head.candidate) then st.piped + [head] else st.piped)
  }

  ghost predicate IsRun(st: State, ops: seq<Op>)
    decreases |ops|
  {
    ops == [] || (Enabled(st, ops[0]) && IsRun(Next(st, ops[0]), ops[1..]))
  }

  ghost function After(st: State, ops: seq<Op>): State
    requires IsRun(st, ops)
    decreases |ops|
  {
    if ops == [] then st else After(Next(st, ops[0]), ops[1..])
  }

  /** A run is also a run step by step from its beginning. */
  lemma {:induction false} RunPrefix(st: State, ops: seq<Op>, k: nat)
    requires IsRun(st, ops) && k <= |ops|
    ensures IsRun(st, ops[..k])
    ensures k < |ops| ==>
              && Enabled(After(st, ops[..k]), ops[k]) && IsRun(st, ops[..k + 1])
              && After(st, ops[..k + 1]) == Next(After(st, ops[..k]), ops[k])
    decreases k
  {
    hide Enabled, Next;
    if k > 0 {
      RunPrefix(Next(st, ops[0]), ops[1..], k - 1);
      assert ops[..k][1..] == ops[1..][..k - 1];
      if k < |ops| {
        assert ops[..k + 1][1..] == ops[1..][..k];
      }
    } else if ops != [] {
      assert ops[..1] == [ops[0]] && ops[..1][1..] == [];
    }
  }

  // ---- What every step keeps ----

  /** Nothing held is ever changed or dropped. */
  ghost predicate Extends(st: Store, later: Store) {
    && (forall k :: k in st.evidence.entries ==>
        k in later.evidence.entries && later.evidence.entries[k] == st.evidence.entries[k])
    && (forall k :: k in st.candidates.entries ==>
        k in later.candidates.entries && later.candidates.entries[k] == st.candidates.entries[k])
  }

  /** Every id a candidate names is a stored event of its own zone, and it names at least one. */
  ghost predicate Grounded(st: Store, c: Candidate) {
    c.evidenceIds != [] && forall n :: n in c.evidenceIds ==> StoredInZone(st.Events(), c.zoneId, n)
  }

  /** Candidates of readings exist for exactly the stored readings that say something. */
  ghost predicate ReadingsMatch(st: Store) {
    forall zone, status, key :: ReadingKey(zone, status, key) in st.candidates.entries <==>
      (key in st.evidence.entries && status != Unknown && st.evidence.entries[key].zoneId == zone &&
          st.evidence.entries[key].status == status)
  }

  ghost predicate Sound(st: Store) {
    && st.WellFormed()
    && ReadingsMatch(st)
    && forall k :: k in st.candidates.entries ==> Grounded(st, st.candidates.entries[k])
  }

  lemma EventsGrow(st: Store, later: Store)
    requires Extends(st, later)
    ensures forall e :: e in st.Events() ==> e in later.Events()
  {
    ValuesAreEntries(st.evidence);
    ValuesAreEntries(later.evidence);
  }

  lemma GroundedStays(st: Store, later: Store, c: Candidate)
    requires Extends(st, later) && Grounded(st, c)
    ensures Grounded(later, c)
  {
    EventsGrow(st, later);
    forall n | n in c.evidenceIds
      ensures StoredInZone(later.Events(), c.zoneId, n)
    {
      assert StoredInZone(st.Events(), c.zoneId, n);
    }
  }

  ghost function Holding(st: Store, e: Evidence): Store {
    st.(evidence := Put(st.evidence, e.idempotencyKey, e))
  }

  lemma IngestExtends(st: Store, e: Evidence, id: Id)
    requires ReadingsMatch(st)
    ensures Extends(st, Ingested(st, e, id))
  {
  }

  lemma IngestMatches(st: Store, e: Evidence, id: Id)
    requires ReadingsMatch(st)
    ensures ReadingsMatch(Ingested(st, e, id))
  {
  }

  lemma NewCandidateIsGrounded(st: Store, e: Evidence, id: Id)
    requires e.idempotencyKey !in st.evidence.entries && e.status != Unknown
    ensures Grounded(Holding(st, e), CandidateFor(e, Holding(st, e).ZoneEvents(e.zoneId), id).value)
  {
    var held := Holding(st, e);
    var recent := held.ZoneEvents(e.zoneId);
    var c := CandidateFor(e, recent, id).value;
    CandidateNamesItsZone(e, recent, id);
    ValuesAreEntries(held.evidence);
    assert held.evidence.entries[e.idempotencyKey] == e;
    forall n | n in c.evidenceIds
      ensures StoredInZone(held.Events(), c.zoneId, n)
    {
      if n == e.id {
        assert e in held.Events();
      } else {
        assert StoredInZone(recent, e.zoneId, n);
      }
    }
  }

  lemma IngestIsSound(st: Store, e: Evidence, id: Id)
    requires Sound(st) && FreshId(st, e.id)
    ensures Sound(Ingested(st, e, id)) && Extends(st, Ingested(st, e, id))
  {
    hide CandidateFor;
    IngestExtends(st, e, id);
    IngestMatches(st, e, id);
    var later := Ingested(st, e, id);
    if e.idempotencyKey !in st.evidence.entries {
      HeldKeepsDistinctIds(st, e);
      assert later.Events() == Holding(st, e).Events();
      forall k | k in later.candidates.entries
        ensures Grounded(later, later.candidates.entries[k])
      {
        if k in st.candidates.entries && later.candidates.entries[k] == st.candidates.entries[k] {
          GroundedStays(st, later, st.candidates.entries[k]);
        } else {
          NewCandidateIsSet(st, e, id, k);
        }
      }
    }
  }

  lemma NewCandidateIsSet(st: Store, e: Evidence, id: Id, k: CandidateKey)
    requires e.idempotencyKey !in st.evidence.entries
    requires var later := Ingested(st, e, id);
             k in later.candidates.entries && !(k in st.candidates.entries &&
                 later.candidates.entries[k] == st.candidates.entries[k])
    ensures Grounded(Ingested(st, e, id), Ingested(st, e, id).candidates.entries[k])
  {
    hide ReadingCandidate, AgreementOf;
    var later := Ingested(st, e, id);
    assert e.status != Unknown;
    NewCandidateIsGrounded(st, e, id);
    assert later.Events() == Holding(st, e).Events();
  }

  lemma RecordIsSound(st: Store, c: Candidate)
    requires Sound(st) && Grounded(st, c)
    ensures Sound(Recorded(st, c)) && Extends(st, Recorded(st, c))
  {
    var later := Recorded(st, c);
    assert later.Events() == st.Events();
    forall k | k in later.candidates.entries
      ensures Grounded(later, later.candidates.entries[k])
    {
      assert Grounded(st, later.candidates.entries[k]);
    }
  }

  // ---- What a sweep sees ----

  /** The candidate reports a silence of its zone that was real in the evidence held when its sweep began. */
  ghost predicate WasReal(s: Sighting) {
    && s.candidate.status == Outage
    && IsSilence(BeatSet(s.candidate.zoneId, s.seen), HEARTBEAT_GAP_MS, s.now, s.candidate.windowStart,
        s.candidate.windowEnd)
    && s.now - SWEEP_LOOKBACK_MS <= s.candidate.windowStart
  }

  lemma CandidateHasGap(gaps: seq<Gap>, uuid: nat -> Id, c: Candidate)
    requires c in CandidatesOf(gaps, uuid)
    ensures exists g :: g in gaps && c == CandidateOf(g, c.id)
  {
    var cs := CandidatesOf(gaps, uuid);
    var i: nat :| i < |cs| && c == cs[i];
    assert cs[i] == CandidateOf(gaps[i], uuid(i));
    assert gaps[i] in gaps;
  }

  ghost predicate SightedIn(byZone: OrderedMap<ZoneId, seq<Evidence>>, zone: ZoneId, now: Instant, c: Candidate) {
    && zone in byZone.entries
    && exists g :: g in Gaps(zone, byZone.entries[zone], HEARTBEAT_GAP_MS, now) && c == CandidateOf(g, c.id)
  }

  lemma {:induction false} SightingHasGap(byZone: OrderedMap<ZoneId, seq<Evidence>>, k: nat, now: Instant,
      uuid: nat -> Id, c: Candidate)
    requires k <= |byZone.order|
    requires c in Sightings(byZone, k, now, uuid)
    ensures exists zone :: SightedIn(byZone, zone, now, c)
  {
    hide Gaps, CandidatesOf;
    var earlier := Sightings(byZone, k - 1, now, uuid);
    var zone := byZone.order[k - 1];
    assert zone in byZone.order;
    if c in earlier {
      SightingHasGap(byZone, k - 1, now, uuid, c);
    } else {
      CandidateHasGap(Gaps(zone, byZone.entries[zone], HEARTBEAT_GAP_MS, now), Shifted(uuid, |earlier|), c);
      assert SightedIn(byZone, zone, now, c);
    }
  }

  /** A zone's group holds the same beats as the whole lookback. */
  lemma GroupHasAllBeats(events: seq<Evidence>, zone: ZoneId)
    requires zone in GroupByZone(events).entries
    ensures BeatSet(zone, GroupByZone(events).entries[zone]) == BeatSet(zone, events)
  {
    GroupsAreZones(events, zone);
  }

  lemma SweepSeesItsLookback(st: Store, now: Instant, zone: ZoneId, g: Gap)
    requires DistinctIds(st.Events())
    requires zone in GroupByZone(SweepEvidence(st, now)).entries
    requires g in Gaps(zone, GroupByZone(SweepEvidence(st, now)).entries[zone], HEARTBEAT_GAP_MS, now)
    ensures g in Gaps(zone, SweepEvidence(st, now), HEARTBEAT_GAP_MS, now)
  {
    LookbackBeats(zone, st.Events(), now - SWEEP_LOOKBACK_MS);
    GroupKeepsDistinctIds(SweepEvidence(st, now), zone);
    GroupHasAllBeats(SweepEvidence(st, now), zone);
    OnlyBeatsMatter(zone, GroupByZone(SweepEvidence(st, now)).entries[zone], SweepEvidence(st, now),
        HEARTBEAT_GAP_MS, now);
  }

  lemma SightingIsReported(st: Store, now: Instant, uuid: nat -> Id, c: Candidate)
    requires DistinctIds(st.Events()) && c in SweepSightings(st, now, uuid)
    ensures exists g :: g in Gaps(c.zoneId, SweepEvidence(st, now), HEARTBEAT_GAP_MS, now) && c == CandidateOf(g, c.id)
  {
    hide GapConfidence, EvidenceSourceIdentity, Sightings, GroupByZone, Lookback;
    var byZone := GroupByZone(SweepEvidence(st, now));
    SightingHasGap(byZone, |byZone.order|, now, uuid, c);
    var zone :| SightedIn(byZone, zone, now, c);
    var g :| g in Gaps(zone, byZone.entries[zone], HEARTBEAT_GAP_MS, now) && c == CandidateOf(g, c.id);
    SweepSeesItsLookback(st, now, zone, g);
    LookbackBeats(zone, st.Events(), now - SWEEP_LOOKBACK_MS);
    ReportedIsDescribed(zone, SweepEvidence(st, now), HEARTBEAT_GAP_MS, now, g);
  }

  lemma GapIsGrounded(evidence: seq<Evidence>, zone: ZoneId, g: Gap, now: Instant)
    requires DistinctIds(evidence) && g in Gaps(zone, evidence, HEARTBEAT_GAP_MS, now)
    ensures g.zoneId == zone && g.evidenceIds != []
    ensures forall n :: n in g.evidenceIds ==> StoredInZone(evidence, zone, n)
  {
    hide GapConfidence, EvidenceSourceIdentity;
    var beats := BeatSet(zone, evidence);
    ReportedIsDescribed(zone, evidence, HEARTBEAT_GAP_MS, now, g);
    var opening :| LatestIdAt(beats, g.windowStart, opening) &&
      if HeardAfter(beats, g.windowStart)
      then exists closing :: EarliestIdAt(beats, g.windowEnd, closing) && g.evidenceIds == [opening.id, closing.id]
      else g.evidenceIds == [opening.id];
    assert StoredInZone(evidence, zone, opening.id);
    if HeardAfter(beats, g.windowStart) {
      var closing :| EarliestIdAt(beats, g.windowEnd, closing) && g.evidenceIds == [opening.id, closing.id];
      assert StoredInZone(evidence, zone, closing.id);
    }
  }

  lemma SightingIsRealAndGrounded(st: Store, now: Instant, uuid: nat -> Id, c: Candidate)
    requires DistinctIds(st.Events())
    requires c in SweepSightings(st, now, uuid)
    ensures WasReal(Sighting(c, st.Events(), now)) && Grounded(st, c)
  {
    hide GapConfidence, EvidenceSourceIdentity;
    var zone := c.zoneId;
    SightingIsReported(st, now, uuid, c);
    var g :| g in Gaps(zone, SweepEvidence(st, now), HEARTBEAT_GAP_MS, now) && c == CandidateOf(g, c.id);
    LookbackBeats(zone, st.Events(), now - SWEEP_LOOKBACK_MS);
    GapIsGrounded(SweepEvidence(st, now), zone, g, now);
    forall n | n in c.evidenceIds
      ensures StoredInZone(st.Events(), zone, n)
    {
      assert StoredInZone(SweepEvidence(st, now), zone, n);
    }
    WindowInvents(zone, st.Events(), now - SWEEP_LOOKBACK_MS, HEARTBEAT_GAP_MS, now, g);
    var full :| full in Gaps(zone, st.Events(), HEARTBEAT_GAP_MS, now) && SameSilence(full, g) &&
        g.confidence <= full.confidence;
    ReportedIsDescribed(zone, st.Events(), HEARTBEAT_GAP_MS, now, full);
  }

  // ---- The invariant of every run ----

  ghost predicate Distinguished(piped: seq<Sighting>) {
    forall i, j :: 0 <= i < j < |piped| ==> HeartbeatGapKey(piped[i].candidate) != HeartbeatGapKey(piped[j].candidate)
  }

  /** The piped candidates are the recorded silences, one each. */
  ghost predicate PipedAreRecorded(st: State) {
    && Distinguished(st.piped)
    && (forall s :: s in st.piped ==>
          HeartbeatGapKey(s.candidate) in st.store.candidates.entries
          && st.store.candidates.entries[HeartbeatGapKey(s.candidate)] == s.candidate)
    && (forall zone, start :: SilenceKey(zone, start) in st.store.candidates.entries ==>
          exists s :: s in st.piped && HeartbeatGapKey(s.candidate) == SilenceKey(zone, start))
  }

  ghost predicate Inv(st: State) {
    && Sound(st.store)
    && PipedAreRecorded(st)
    && (forall s :: s in st.piped ==> WasReal(s))
    && (forall k, s :: k in st.inFlight && s in st.inFlight[k] ==> WasReal(s) && Grounded(st.store, s.candidate))
  }

  lemma IngestKeepsSilences(st: Store, e: Evidence, id: Id)
    ensures forall zone, start :: SilenceKey(zone, start) in Ingested(st, e, id).candidates.entries <==>
        SilenceKey(zone, start) in st.candidates.entries
  {
  }

  lemma IngestKeepsInv(st: State, e: Evidence, id: Id)
    requires Inv(st) && FreshId(st.store, e.id)
    ensures Inv(st.(store := Ingested(st.store, e, id)))
  {
    hide Ingested, Grounded, WasReal, Sound;
    IngestIsSound(st.store, e, id);
    SoundMatches(st.store);
    IngestKeepsSilences(st.store, e, id);
    var later := st.(store := Ingested(st.store, e, id));
    forall k, s | k in later.inFlight && s in later.inFlight[k]
      ensures WasReal(s) && Grounded(later.store, s.candidate)
    {
      GroundedStays(st.store, later.store, s.candidate);
    }
  }

  lemma SoundMatches(st: Store)
    requires Sound(st)
    ensures ReadingsMatch(st) && DistinctIds(st.Events())
  {
  }

  lemma BeginKeepsInv(st: State, k: nat, now: Instant, uuid: nat -> Id)
    requires Inv(st) && k !in st.inFlight
    ensures Inv(st.(inFlight := st.inFlight[k := SightingsOf(st.store, now, uuid)]))
  {
    hide Sound, WasReal, Grounded, SweepSightings;
    SoundMatches(st.store);
    var found := SightingsOf(st.store, now, uuid);
    forall s | s in found
      ensures WasReal(s) && Grounded(st.store, s.candidate)
    {
      SightingIsRealAndGrounded(st.store, now, uuid, s.candidate);
    }
  }

  lemma RecordPipes(st: State, s: Sighting)
    requires PipedAreRecorded(st)
    ensures var c := s.candidate;
            PipedAreRecorded(State(Recorded(st.store, c), st.inFlight, if IsNew(st.store, c) then st.piped + [s]
                else st.piped))
  {
    if IsNew(st.store, s.candidate) {
      NewRecordPipes(st, s);
    } else {
      assert Recorded(st.store, s.candidate) == st.store;
    }
  }

  lemma NewRecordPipes(st: State, s: Sighting)
    requires PipedAreRecorded(st) && IsNew(st.store, s.candidate)
    ensures PipedAreRecorded(State(Recorded(st.store, s.candidate), st.inFlight, st.piped + [s]))
  {
    var key := HeartbeatGapKey(s.candidate);
    var later, piped := Recorded(st.store, s.candidate), st.piped + [s];
    assert later.candidates.entries == st.store.candidates.entries[key := s.candidate];
    hide Recorded, IsNew;
    forall i, j | 0 <= i < j < |piped|
      ensures HeartbeatGapKey(piped[i].candidate) != HeartbeatGapKey(piped[j].candidate)
    {
      assert st.piped[i] in st.piped;
    }
    forall zone, start | SilenceKey(zone, start) in later.candidates.entries
      ensures exists t :: t in piped && HeartbeatGapKey(t.candidate) == SilenceKey(zone, start)
    {
      if SilenceKey(zone, start) == key {
        assert s in piped;
      } else {
        var t :| t in st.piped && HeartbeatGapKey(t.candidate) == SilenceKey(zone, start);
        assert t in piped;
      }
    }
  }

  lemma RecordKeepsInv(st: State, k: nat)
    requires Inv(st) && k in st.inFlight && st.inFlight[k] != []
    ensures Inv(Next(st, RecordNext(k)))
  {
    hide Sound, WasReal, Grounded, PipedAreRecorded;
    var s := st.inFlight[k][0];
    assert s in st.inFlight[k];
    RecordIsSound(st.store, s.candidate);
    RecordPipes(st, s);
    var later := Next(st, RecordNext(k));
    PipedIgnoresFlight(later, st.inFlight);
    forall j, t | j in later.inFlight && t in later.inFlight[j]
      ensures WasReal(t) && Grounded(later.store, t.candidate)
    {
      assert t in st.inFlight[j];
      GroundedStays(st.store, later.store, t.candidate);
    }
  }

  lemma PipedIgnoresFlight(st: State, other: map<nat, seq<Sighting>>)
    ensures PipedAreRecorded(st) <==> PipedAreRecorded(st.(inFlight := other))
  {
  }

  lemma StepKeepsInv(st: State, op: Op)
    requires Inv(st) && Enabled(st, op)
    ensures Inv(Next(st, op)) && Extends(st.store, Next(st, op).store)
    ensures st.piped <= Next(st, op).piped
  {
    hide Inv, Sound, WasReal, Grounded, PipedAreRecorded;
    InvIsSound(st);
    match op
    case Ingest(e, id) =>
      IngestKeepsInv(st, e, id);
      IngestIsSound(st.store, e, id);
    case Begin(k, now, uuid) =>
      BeginKeepsInv(st, k, now, uuid);
    case RecordNext(k) =>
      RecordKeepsInv(st, k);
      RecordIsSound(st.store, st.inFlight[k][0].candidate);
  }

  lemma InvIsSound(st: State)
    requires Inv(st)
    ensures Sound(st.store)
    ensures forall k, s :: k in st.inFlight && s in st.inFlight[k] ==> Grounded(st.store, s.candidate)
  {
  }

  lemma ExtendsTransitive(a: Store, b: Store, c: Store)
    requires Extends(a, b) && Extends(b, c)
    ensures Extends(a, c)
  {
  }

  lemma {:induction false} RunKeepsInv(st: State, ops: seq<Op>)
    requires Inv(st) && IsRun(st, ops)
    ensures Inv(After(st, ops)) && Extends(st.store, After(st, ops).store)
    ensures st.piped <= After(st, ops).piped
    decreases |ops|
  {
    hide Inv, Enabled, Next;
    if ops != [] {
      StepKeepsInv(st, ops[0]);
      RunKeepsInv(Next(st, ops[0]), ops[1..]);
      ExtendsTransitive(st.store, Next(st, ops[0]).store, After(st, ops).store);
    }
  }

  lemma EmptyIsSound()
    ensures Inv(EMPTY)
  {
  }

  // ---- Main results ----

  /** Exactly once per silence. However ingests and sweeps interleave, no silence is handed to the pipeline twice,
      the silences handed over are exactly those recorded, and each was a real over-threshold silence, starting
      within the lookback, in the evidence held when its sweep began. */
  lemma {:induction false} ExactlyOncePerSilence(ops: seq<Op>)
    requires IsRun(EMPTY, ops)
    ensures var st := After(EMPTY, ops);
            && Distinguished(st.piped)
            && (forall zone, start :: SilenceKey(zone, start) in st.store.candidates.entries <==>
                  exists s :: s in st.piped && HeartbeatGapKey(s.candidate) == SilenceKey(zone, start))
            && (forall s :: s in st.piped ==> WasReal(s))
  {
    hide IsRun, After, WasReal, Sound;
    EmptyIsSound();
    RunKeepsInv(EMPTY, ops);
  }

  /** Provenance. In every reachable state each stored candidate names a non-empty list of stored events,
      all of its own zone. */
  lemma {:induction false} CandidatesAreGrounded(ops: seq<Op>, k: CandidateKey)
    requires IsRun(EMPTY, ops) && k in After(EMPTY, ops).store.candidates.entries
    ensures var st := After(EMPTY, ops).store; Grounded(st, st.candidates.entries[k])
  {
    hide IsRun, After, Grounded;
    EmptyIsSound();
    RunKeepsInv(EMPTY, ops);
  }

  ghost function FirstWith(ops: seq<Op>, key: string): Option<Evidence> {
    if ops == [] then None
    else if ops[0].Ingest? && ops[0].event.idempotencyKey == key then Some(ops[0].event)
    else FirstWith(ops[1..], key)
  }

  /** A step adds at most the event it ingests, and only under a new key. */
  lemma StepHolds(st: State, op: Op, key: string)
    requires Enabled(st, op)
    ensures var before, held := st.store.evidence.entries, Next(st, op).store.evidence.entries;
            if op.Ingest? && op.event.idempotencyKey == key && key !in before then key in held && held[key] == op.event
            else (key in held <==> key in before)
  {
  }

  lemma {:induction false} HoldsFirstFrom(st: State, ops: seq<Op>, key: string)
    requires Inv(st) && IsRun(st, ops)
    ensures var held := After(st, ops).store.evidence.entries;
            if key in st.store.evidence.entries then key in held && held[key] == st.store.evidence.entries[key]
            else match FirstWith(ops, key)
                 case Some(e) => key in held && held[key] == e
                 case None => key !in held
    decreases |ops|
  {
    hide Inv, Enabled, Next;
    if ops != [] {
      StepKeepsInv(st, ops[0]);
      StepHolds(st, ops[0], key);
      HoldsFirstFrom(Next(st, ops[0]), ops[1..], key);
    }
  }

  /** Idempotent ingestion. After any run the store holds, per idempotency key, exactly the first event
      ingested under it. */
  lemma {:induction false} HoldsFirstPerKey(ops: seq<Op>, key: string)
    requires IsRun(EMPTY, ops)
    ensures var held := After(EMPTY, ops).store.evidence.entries;
            match FirstWith(ops, key)
            case Some(e) => key in held && held[key] == e
            case None => key !in held
  {
    EmptyIsSound();
    HoldsFirstFrom(EMPTY, ops, key);
  }

  lemma FirstIngestIsFound(st: Store, e: Evidence, id: Id)
    requires e.idempotencyKey !in st.evidence.entries && ReadingsMatch(st)
    ensures var later := Ingested(st, e, id);
            && e.idempotencyKey in later.evidence.entries && later.evidence.entries[e.idempotencyKey] == e
            && IngestAnswer(st, e, id) == IngestResult(false, e, later.FindCandidate(e))
  {
    hide AgreementOf;
  }

  /** A stored event's candidate never changes. */
  lemma FoundStays(st: Store, later: Store, e: Evidence)
    requires Extends(st, later) && ReadingsMatch(st) && ReadingsMatch(later)
    requires e.idempotencyKey in st.evidence.entries && st.evidence.entries[e.idempotencyKey] == e
    ensures later.evidence.entries[e.idempotencyKey] == e
    ensures later.FindCandidate(e) == st.FindCandidate(e)
  {
    var k := ReadingKey(e.zoneId, e.status, e.idempotencyKey);
    assert k in st.candidates.entries <==> k in later.candidates.entries;
  }

  lemma ReplayAnswers(st: Store, later: Store, first: Evidence, firstId: Id, replay: Evidence, replayId: Id)
    requires ReadingsMatch(st) && ReadingsMatch(Ingested(st, first, firstId)) && ReadingsMatch(later)
    requires Extends(Ingested(st, first, firstId), later)
    requires first.idempotencyKey !in st.evidence.entries && replay.idempotencyKey == first.idempotencyKey
    ensures Ingested(later, replay, replayId) == later
    ensures IngestAnswer(later, replay, replayId) == IngestAnswer(st, first, firstId).(duplicate := true)
  {
    hide CandidateFor, ReadingsMatch;
    FirstIngestIsFound(st, first, firstId);
    FoundStays(Ingested(st, first, firstId), later, first);
  }

  /** Replays. Ingest an event under a new key, let anything happen, then ingest under the same key again:
      the replay changes neither map and answers with the original event and its original candidate. */
  lemma {:induction false} ReplayReturnsOriginal(st: State, first: Evidence, firstId: Id, between: seq<Op>,
      replay: Evidence, replayId: Id)
    requires Inv(st) && FreshId(st.store, first.id)
    requires first.idempotencyKey !in st.store.evidence.entries && replay.idempotencyKey == first.idempotencyKey
    requires IsRun(Next(st, Ingest(first, firstId)), between)
    ensures var later := After(Next(st, Ingest(first, firstId)), between).store;
            && Ingested(later, replay, replayId) == later
            && IngestAnswer(later, replay, replayId) == IngestAnswer(st.store, first, firstId).(duplicate := true)
  {
    hide Inv, ReadingsMatch, Extends, Ingested, IngestAnswer, FreshId, IsRun, After;
    var next := Next(st, Ingest(first, firstId));
    StepKeepsInv(st, Ingest(first, firstId));
    RunKeepsInv(next, between);
    var later := After(next, between);
    InvMatches(st);
    InvMatches(next);
    InvMatches(later);
    ReplayAnswers(st.store, later.store, first, firstId, replay, replayId);
  }

  lemma InvMatches(st: State)
    requires Inv(st)
    ensures ReadingsMatch(st.store)
  {
  }

  // ---- Without interleaving ----

  function CandidatesIn(xs: seq<Sighting>): seq<Candidate> {
    seq(|xs|, i requires 0 <= i < |xs| => xs[i].candidate)
  }

  lemma RecordFirst(st: Store, cs: seq<Candidate>)
    requires cs != []
    ensures RecordedAll(st, cs) == RecordedAll(Recorded(st, cs[0]), cs[1..])
    ensures HandedBack(st, cs) == (if IsNew(st, cs[0]) then [cs[0]] else []) + HandedBack(Recorded(st, cs[0]), cs[1..])
  {
    assert cs == [cs[0]] + cs[1..] && [] + [cs[0]] == [cs[0]];
    RecordNone(st);
    RecordOneMore(st, [], cs[0]);
    hide RecordedAll, HandedBack, Recorded, IsNew;
    RecordAllConcat(st, [cs[0]], cs[1..]);
  }

  ghost function Recordings(k: nat, n: nat): seq<Op> {
    seq(n, i => RecordNext(k))
  }

  lemma RecordStep(st: State, k: nat)
    requires k in st.inFlight && st.inFlight[k] != []
    ensures var x, next := st.inFlight[k][0], Next(st, RecordNext(k));
            && Enabled(st, RecordNext(k))
            && next.store == Recorded(st.store, x.candidate) && next.inFlight == st.inFlight[k := st.inFlight[k][1..]]
            && CandidatesIn(next.piped) ==
               CandidatesIn(st.piped) + if IsNew(st.store, x.candidate) then [x.candidate] else []
  {
    hide Recorded, IsNew;
    PipedOneMore(st.piped, st.inFlight[k][0]);
    hide CandidatesIn;
  }

  lemma HeadAndTail(xs: seq<Sighting>)
    requires xs != []
    ensures CandidatesIn(xs) != [] && CandidatesIn(xs)[0] == xs[0].candidate
    ensures CandidatesIn(xs)[1..] == CandidatesIn(xs[1..])
  {
  }

  lemma RecordingsTail(k: nat, n: nat)
    requires n > 0
    ensures Recordings(k, n) != [] && Recordings(k, n)[0] == RecordNext(k) &&
        Recordings(k, n)[1..] == Recordings(k, n - 1)
  {
  }

  /** A sweep in flight that is not interrupted records all it has sighted and hands back what is new. */
  lemma {:induction false} RecordsRunThrough(st: State, k: nat)
    requires k in st.inFlight
    ensures var cs, ops := CandidatesIn(st.inFlight[k]), Recordings(k, |st.inFlight[k]|);
            && IsRun(st, ops)
            && After(st, ops).store == RecordedAll(st.store, cs)
            && CandidatesIn(After(st, ops).piped) == CandidatesIn(st.piped) + HandedBack(st.store, cs)
    decreases |st.inFlight[k]|
  {
    var xs := st.inFlight[k];
    if xs == [] {
      RecordNone(st.store);
    } else {
      hide Next, Enabled, Recorded, IsNew, RecordedAll, HandedBack, CandidatesIn, Recordings;
      RecordStep(st, k);
      RecordsRunThrough(Next(st, RecordNext(k)), k);
      HeadAndTail(xs);
      RecordingsTail(k, |xs|);
      RecordFirst(st.store, CandidatesIn(xs));
      ConcatIsAssociative(CandidatesIn(st.piped), if IsNew(st.store, xs[0].candidate) then [xs[0].candidate] else [],
          HandedBack(Recorded(st.store, xs[0].candidate), CandidatesIn(xs[1..])));
    }
  }

  lemma PipedOneMore(piped: seq<Sighting>, x: Sighting)
    ensures CandidatesIn(piped + [x]) == CandidatesIn(piped) + [x.candidate]
  {
  }

  /** So a sweep that runs through does what one pass of the sweep does. */
  lemma {:induction false} SweepRunsThrough(st: State, k: nat, now: Instant, uuid: nat -> Id)
    requires Enabled(st, Begin(k, now, uuid))
    ensures var n, begun := |SweepSightings(st.store, now, uuid)|, Next(st, Begin(k, now, uuid));
            && IsRun(begun, Recordings(k, n))
            && After(begun, Recordings(k, n)).store == Swept(st.store, now, uuid)
            && CandidatesIn(After(begun, Recordings(k, n)).piped) ==
               CandidatesIn(st.piped) + HandedBack(st.store, SweepSightings(st.store, now, uuid))
  {
    hide SweepSightings, IsRun, After, RecordedAll, HandedBack;
    var begun := Next(st, Begin(k, now, uuid));
    assert CandidatesIn(begun.inFlight[k]) == SweepSightings(st.store, now, uuid);
    RecordsRunThrough(begun, k);
  }
}
