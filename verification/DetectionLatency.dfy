/** Whole timed runs: readings arrive as they are observed, sweeps begin at most a bounded interval apart and record
    their silences one by one, and anything may happen in between. */
module DetectionLatency {
  import opened Agreement
  import opened Collections
  import opened Domain
  import opened EvidenceStore
  import opened GapArithmetic
  import opened Heartbeat
  import opened Silence
  import opened SilenceOverTime
  import opened StoreRuns

  const GAP := HEARTBEAT_GAP_MS

  /** Arrivals and the beginnings of sweeps have a time; the recordings of a sweep follow it whenever they do. */
  predicate Timed(op: Op) {
    !op.RecordNext?
  }

  function TimeOf(op: Op): Instant
    requires Timed(op)
  {
    match op
    case Ingest(e, _) => e.observedAt
    case Begin(_, now, _) => now
  }

  ghost function StateAt(ops: seq<Op>, k: nat): State
    requires IsRun(EMPTY, ops) && k <= |ops|
  {
    RunPrefix(EMPTY, ops, k);
    After(EMPTY, ops[..k])
  }

  ghost function StoreAt(ops: seq<Op>, k: nat): Store
    requires IsRun(EMPTY, ops) && k <= |ops|
  {
    StateAt(ops, k).store
  }

  /** The last beginning of a sweep before operation k; the scheduler starts its first interval at `start`. */
  ghost function LastSweep(start: Instant, ops: seq<Op>, k: nat): Instant
    requires k <= |ops|
  {
    if k == 0 then start
    else if ops[k - 1].Begin? then ops[k - 1].now
    else LastSweep(start, ops, k - 1)
  }

  /** Time never runs backwards, and nothing happens later than `every` after the last sweep began. */
  ghost predicate OnTime(start: Instant, ops: seq<Op>, every: nat) {
    && (forall k :: 0 <= k < |ops| && Timed(ops[k]) ==> start <= TimeOf(ops[k]) <= LastSweep(start, ops, k) + every)
    && (forall i, j :: 0 <= i < j < |ops| && Timed(ops[i]) && Timed(ops[j]) ==> TimeOf(ops[i]) <= TimeOf(ops[j]))
  }

  // ---- Along the run ----

  lemma StateNext(ops: seq<Op>, k: nat)
    requires IsRun(EMPTY, ops) && k < |ops|
    ensures Enabled(StateAt(ops, k), ops[k]) && StateAt(ops, k + 1) == Next(StateAt(ops, k), ops[k])
  {
    RunPrefix(EMPTY, ops, k);
    hide After, Enabled, Next;
  }

  lemma StateSound(ops: seq<Op>, k: nat)
    requires IsRun(EMPTY, ops) && k <= |ops|
    ensures Inv(StateAt(ops, k)) && StoreAt(ops, k).WellFormed() && DistinctIds(StoreAt(ops, k).Events())
  {
    hide Inv, After, IsRun;
    EmptyIsSound();
    RunPrefix(EMPTY, ops, k);
    RunKeepsInv(EMPTY, ops[..k]);
    InvIsSound(StateAt(ops, k));
  }

  lemma {:induction false} StoresExtend(ops: seq<Op>, j: nat, k: nat)
    requires IsRun(EMPTY, ops) && j <= k <= |ops|
    ensures Extends(StoreAt(ops, j), StoreAt(ops, k))
    decreases k
  {
    hide Inv, StateAt, Enabled, Next, Extends;
    if j < k {
      StoresExtend(ops, j, k - 1);
      StateNext(ops, k - 1);
      StateSound(ops, k - 1);
      StepKeepsInv(StateAt(ops, k - 1), ops[k - 1]);
      ExtendsTransitive(StoreAt(ops, j), StoreAt(ops, k - 1), StoreAt(ops, k));
    } else {
      ExtendsItself(StoreAt(ops, k));
    }
  }

  lemma ExtendsItself(st: Store)
    ensures Extends(st, st)
  {
  }

  /** Operation j ingests an event that the store keeps: its idempotency key is new. */
  ghost predicate Accepts(ops: seq<Op>, j: int)
    requires IsRun(EMPTY, ops)
  {
    && 0 <= j < |ops| && ops[j].Ingest?
    && ops[j].event.idempotencyKey !in StoreAt(ops, j).evidence.entries
  }

  ghost predicate AcceptedBefore(ops: seq<Op>, k: nat, e: Evidence)
    requires IsRun(EMPTY, ops)
  {
    exists j :: 0 <= j < k && Accepts(ops, j) && ops[j].event == e
  }

  lemma IngestHolds(st: Store, e: Evidence, id: Id)
    requires st.WellFormed() && FreshId(st, e.id)
    ensures var later := Ingested(st, e, id);
            && later.WellFormed()
            && (forall x :: x in later.Events() ==> x in st.Events() || x == e)
            && (forall x :: x in st.Events() ==> x in later.Events())
            && (e.idempotencyKey !in st.evidence.entries ==> e in later.Events())
            && (e.idempotencyKey in st.evidence.entries ==> later == st)
            && (forall zone, s :: SilenceKey(zone, s) in later.candidates.entries <==>
                SilenceKey(zone, s) in st.candidates.entries)
  {
    hide CandidateFor;
    IngestKeepsSilences(st, e, id);
    if e.idempotencyKey !in st.evidence.entries {
      HeldKeepsDistinctIds(st, e);
      assert Ingested(st, e, id).Events() == st.Events() + [e];
    }
  }

  /** One step adds at most the event it ingests, and only under a new key. */
  lemma NewEventIsIngested(st: State, op: Op, e: Evidence)
    requires Enabled(st, op) && st.store.WellFormed()
    requires e in Next(st, op).store.Events() && e !in st.store.Events()
    ensures op.Ingest? && op.event == e && e.idempotencyKey !in st.store.evidence.entries
  {
    hide Ingested, Recorded, SightingsOf;
    match op
    case Ingest(x, id) => IngestHolds(st.store, x, id);
    case Begin(_, _, _) =>
    case RecordNext(sweep) => RecordedKeepsEvents(st.store, st.inFlight[sweep][0].candidate);
  }

  lemma RecordedKeepsEvents(st: Store, c: Candidate)
    ensures Recorded(st, c).Events() == st.Events()
  {
  }

  /** The evidence held before operation k came from earlier accepted arrivals. */
  lemma {:induction false} EventsWereAccepted(ops: seq<Op>, k: nat, e: Evidence)
    requires IsRun(EMPTY, ops) && k <= |ops| && e in StoreAt(ops, k).Events()
    ensures AcceptedBefore(ops, k, e)
  {
    hide StateAt, Enabled, Next, IsRun, After;
    if k == 0 {
      StateAtStart(ops);
    } else {
      StateNext(ops, k - 1);
      StateSound(ops, k - 1);
      if e in StoreAt(ops, k - 1).Events() {
        EventsWereAccepted(ops, k - 1, e);
      } else {
        NewEventIsIngested(StateAt(ops, k - 1), ops[k - 1], e);
        assert Accepts(ops, k - 1);
      }
    }
  }

  lemma StateAtStart(ops: seq<Op>)
    requires IsRun(EMPTY, ops)
    ensures StateAt(ops, 0) == EMPTY
  {
  }

  ghost predicate ObservedBy(st: Store, now: Instant) {
    forall e :: e in st.Events() ==> e.observedAt <= now
  }

  lemma HeldAreObserved(start: Instant, ops: seq<Op>, every: nat, k: nat)
    requires IsRun(EMPTY, ops) && OnTime(start, ops, every) && k < |ops| && Timed(ops[k])
    ensures ObservedBy(StoreAt(ops, k), TimeOf(ops[k]))
  {
    hide StoreAt;
    forall e | e in StoreAt(ops, k).Events()
      ensures e.observedAt <= TimeOf(ops[k])
    {
      EventsWereAccepted(ops, k, e);
      var j :| 0 <= j < k && Accepts(ops, j) && ops[j].event == e;
    }
  }

  lemma AcceptedIsHeld(ops: seq<Op>, a: nat, k: nat)
    requires IsRun(EMPTY, ops) && Accepts(ops, a) && a < k <= |ops|
    ensures ops[a].event in StoreAt(ops, k).Events()
  {
    hide StateAt, Ingested, Extends, IsRun, After, Inv;
    StateNext(ops, a);
    StateSound(ops, a);
    hide Recorded, SightingsOf;
    IngestHolds(StoreAt(ops, a), ops[a].event, ops[a].candidateId);
    StoresExtend(ops, a + 1, k);
    EventsGrow(StoreAt(ops, a + 1), StoreAt(ops, k));
  }

  // ---- Where recorded silences come from ----

  /** The sweep that begins at operation q sights the candidate. */
  ghost predicate Sights(ops: seq<Op>, q: int, c: Candidate)
    requires IsRun(EMPTY, ops)
  {
    0 <= q < |ops| && ops[q].Begin? && c in SweepSightings(StoreAt(ops, q), ops[q].now, ops[q].uuid)
  }

  ghost predicate SightedBefore(ops: seq<Op>, k: nat, c: Candidate)
    requires IsRun(EMPTY, ops)
  {
    exists q :: 0 <= q < k && Sights(ops, q, c)
  }

  lemma SightingsAreSighted(st: Store, now: Instant, uuid: nat -> Id, x: Sighting)
    ensures x in SightingsOf(st, now, uuid) ==> x.candidate in SweepSightings(st, now, uuid)
    ensures forall c :: c in SweepSightings(st, now, uuid) ==>
              Sighting(c, st.Events(), now) in SightingsOf(st, now, uuid)
  {
    hide SweepSightings;
    var cs, xs := SweepSightings(st, now, uuid), SightingsOf(st, now, uuid);
    forall c | c in cs
      ensures Sighting(c, st.Events(), now) in xs
    {
      var i :| 0 <= i < |cs| && cs[i] == c;
      assert xs[i] == Sighting(c, st.Events(), now);
    }
  }

  /** One step puts into flight at most what the sweep it begins sights. */
  lemma NewFlightIsSighted(st: State, op: Op, sweep: nat, x: Sighting)
    requires Enabled(st, op) && sweep in Next(st, op).inFlight && x in Next(st, op).inFlight[sweep]
    requires sweep in st.inFlight ==> x !in st.inFlight[sweep]
    ensures op.Begin? && x.candidate in SweepSightings(st.store, op.now, op.uuid)
  {
    hide Ingested, Recorded, SightingsOf;
    if op.Begin? {
      SightingsAreSighted(st.store, op.now, op.uuid, x);
    }
  }

  lemma {:induction false} FlyingWasSighted(ops: seq<Op>, k: nat, sweep: nat, x: Sighting)
    requires IsRun(EMPTY, ops) && k <= |ops|
    requires sweep in StateAt(ops, k).inFlight && x in StateAt(ops, k).inFlight[sweep]
    ensures SightedBefore(ops, k, x.candidate)
  {
    hide StateAt, Enabled, Next, IsRun, After, SweepSightings;
    if k == 0 {
      StateAtStart(ops);
    } else {
      StateNext(ops, k - 1);
      var before := StateAt(ops, k - 1);
      if sweep in before.inFlight && x in before.inFlight[sweep] {
        FlyingWasSighted(ops, k - 1, sweep, x);
      } else {
        NewFlightIsSighted(before, ops[k - 1], sweep, x);
        assert Sights(ops, k - 1, x.candidate);
      }
    }
  }

  /** Every recorded silence was sighted by a sweep that began before. */
  lemma {:induction false} RecordedWasSighted(ops: seq<Op>, k: nat, zone: ZoneId, s: Instant)
    requires IsRun(EMPTY, ops) && k <= |ops| && SilenceKey(zone, s) in StoreAt(ops, k).candidates.entries
    ensures var c := StoreAt(ops, k).candidates.entries[SilenceKey(zone, s)];
            c.zoneId == zone && c.windowStart == s && SightedBefore(ops, k, c)
  {
    hide StateAt, Enabled, Next, IsRun, After, Extends, SightedBefore;
    if k == 0 {
      StateAtStart(ops);
    } else {
      StateNext(ops, k - 1);
      var before, key := StateAt(ops, k - 1), SilenceKey(zone, s);
      if key in before.store.candidates.entries {
        RecordedWasSighted(ops, k - 1, zone, s);
        StoresExtend(ops, k - 1, k);
        ExtendsKeeps(before.store, StoreAt(ops, k), key);
        SightedLater(ops, k - 1, k, before.store.candidates.entries[key]);
      } else {
        OnlyRecordingAdds(before, ops[k - 1], zone, s);
        var sweep := ops[k - 1].sweep;
        FlyingWasSighted(ops, k - 1, sweep, before.inFlight[sweep][0]);
        SightedLater(ops, k - 1, k, before.inFlight[sweep][0].candidate);
      }
    }
  }

  lemma ExtendsKeeps(st: Store, later: Store, key: CandidateKey)
    requires Extends(st, later) && key in st.candidates.entries
    ensures key in later.candidates.entries && later.candidates.entries[key] == st.candidates.entries[key]
  {
  }

  lemma SightedLater(ops: seq<Op>, j: nat, k: nat, c: Candidate)
    requires IsRun(EMPTY, ops) && j <= k && SightedBefore(ops, j, c)
    ensures SightedBefore(ops, k, c)
  {
    hide Sights;
  }

  lemma OnlyRecordingAdds(st: State, op: Op, zone: ZoneId, s: Instant)
    requires Enabled(st, op) && SilenceKey(zone, s) !in st.store.candidates.entries
    requires SilenceKey(zone, s) in Next(st, op).store.candidates.entries
    ensures op.RecordNext? && op.sweep in st.inFlight && st.inFlight[op.sweep] != []
    ensures HeartbeatGapKey(st.inFlight[op.sweep][0].candidate) == SilenceKey(zone, s)
    ensures Next(st, op).store.candidates.entries[SilenceKey(zone, s)] == st.inFlight[op.sweep][0].candidate
  {
    hide Ingested, SightingsOf;
    if op.Ingest? {
      IngestKeepsSilences(st.store, op.event, op.candidateId);
    }
  }

  // ---- Where sightings go ----

  ghost predicate Finished(ops: seq<Op>, q: nat, m: nat)
    requires IsRun(EMPTY, ops) && q < |ops| && ops[q].Begin? && m <= |ops|
  {
    q < m && ops[q].sweep in StateAt(ops, m).inFlight && StateAt(ops, m).inFlight[ops[q].sweep] == []
  }

  ghost predicate Flies(st: State, sweep: nat, c: Candidate) {
    sweep in st.inFlight && exists x :: x in st.inFlight[sweep] && x.candidate == c
  }

  /** What a sweep sights is on its way until it is recorded. */
  lemma {:induction false} RecordedOrFlying(ops: seq<Op>, q: nat, m: nat, c: Candidate)
    requires IsRun(EMPTY, ops) && Sights(ops, q, c) && q < m <= |ops|
    ensures HeartbeatGapKey(c) in StoreAt(ops, m).candidates.entries || Flies(StateAt(ops, m), ops[q].sweep, c)
    decreases m
  {
    hide StateAt, Ingested, SightingsOf, Extends, Recorded, SweepSightings, Flies;
    StateNext(ops, m - 1);
    var before := StateAt(ops, m - 1);
    if q == m - 1 {
      BeginFlies(before, ops[q].sweep, ops[q].now, ops[q].uuid, c);
    } else {
      RecordedOrFlying(ops, q, m - 1, c);
      if HeartbeatGapKey(c) in before.store.candidates.entries {
        StoresExtend(ops, m - 1, m);
        ExtendsKeeps(before.store, StoreAt(ops, m), HeartbeatGapKey(c));
      } else {
        FlightGoesOn(before, ops[m - 1], ops[q].sweep, c);
      }
    }
  }

  lemma BeginFlies(st: State, sweep: nat, now: Instant, uuid: nat -> Id, c: Candidate)
    requires Enabled(st, Begin(sweep, now, uuid)) && c in SweepSightings(st.store, now, uuid)
    ensures Flies(Next(st, Begin(sweep, now, uuid)), sweep, c)
  {
    hide SightingsOf, SweepSightings;
    var x := Sighting(c, st.store.Events(), now);
    SightingsAreSighted(st.store, now, uuid, x);
    assert x in Next(st, Begin(sweep, now, uuid)).inFlight[sweep] && x.candidate == c;
  }

  lemma FlightGoesOn(st: State, op: Op, sweep: nat, c: Candidate)
    requires Enabled(st, op) && Flies(st, sweep, c)
    ensures HeartbeatGapKey(c) in Next(st, op).store.candidates.entries || Flies(Next(st, op), sweep, c)
  {
    hide Ingested, SightingsOf;
    var x :| x in st.inFlight[sweep] && x.candidate == c;
    if op.RecordNext? && op.sweep == sweep {
      assert x == st.inFlight[sweep][0] || x in st.inFlight[sweep][1..];
    } else {
      assert x in Next(st, op).inFlight[sweep];
    }
  }

  lemma FinishedIsRecorded(ops: seq<Op>, q: nat, m: nat, c: Candidate)
    requires IsRun(EMPTY, ops) && Sights(ops, q, c) && m <= |ops| && Finished(ops, q, m)
    ensures HeartbeatGapKey(c) in StoreAt(ops, m).candidates.entries
  {
    hide StateAt, Sights;
    RecordedOrFlying(ops, q, m, c);
  }

  // ---- A sweep past the threshold sights the silence ----

  lemma {:induction false} GapIsSighted(byZone: OrderedMap<ZoneId, seq<Evidence>>, k: nat, now: Instant,
      uuid: nat -> Id, z: nat, g: Gap)
    requires z < k <= |byZone.order| && byZone.order[z] in byZone.entries
    requires g in Gaps(byZone.order[z], byZone.entries[byZone.order[z]], GAP, now)
    ensures exists c :: c in Sightings(byZone, k, now, uuid) && c == CandidateOf(g, c.id)
  {
    hide Gaps;
    var earlier := Sightings(byZone, k - 1, now, uuid);
    assert byZone.order[k - 1] in byZone.order;
    if z < k - 1 {
      GapIsSighted(byZone, k - 1, now, uuid, z, g);
    } else {
      var gaps := Gaps(byZone.order[z], byZone.entries[byZone.order[z]], GAP, now);
      var i: nat :| i < |gaps| && gaps[i] == g;
      var shifted := Shifted(uuid, |earlier|);
      var c := CandidatesOf(gaps, shifted)[i];
      assert c == CandidateOf(g, shifted(i)) && c in CandidatesOf(gaps, shifted);
    }
  }

  lemma ZoneGapIsSighted(st: Store, now: Instant, uuid: nat -> Id, zone: ZoneId, g: Gap)
    requires DistinctIds(st.Events()) && BeatSet(zone, SweepEvidence(st, now)) != {}
    requires g in Gaps(zone, SweepEvidence(st, now), GAP, now)
    ensures exists c :: c in SweepSightings(st, now, uuid) && c == CandidateOf(g, c.id)
  {
    hide Gaps, Lookback;
    var evidence := SweepEvidence(st, now);
    var byZone := GroupByZone(evidence);
    var b :| b in BeatSet(zone, evidence);
    GroupsAreZones(evidence, zone);
    LookbackBeats(zone, st.Events(), now - SWEEP_LOOKBACK_MS);
    GroupKeepsDistinctIds(evidence, zone);
    GroupHasAllBeats(evidence, zone);
    OnlyBeatsMatter(zone, byZone.entries[zone], evidence, GAP, now);
    assert zone in byZone.order;
    var z: nat :| z < |byZone.order| && byZone.order[z] == zone;
    GapIsSighted(byZone, |byZone.order|, now, uuid, z, g);
  }

  /** The evidence holds a beat of the zone at s and none within the threshold after it. */
  ghost predicate QuietAfter(events: seq<Evidence>, zone: ZoneId, s: Instant) {
    && HeardAt(BeatSet(zone, events), s)
    && forall b :: b in BeatSet(zone, events) ==> b.observedAt <= s || s + GAP < b.observedAt
  }

  /** The three-gap lookback never misses a silence that began at most three gap-lengths ago. */
  lemma {:induction false} LookbackSuffices(st: Store, now: Instant, uuid: nat -> Id, zone: ZoneId, s: Instant)
    requires DistinctIds(st.Events()) && QuietAfter(st.Events(), zone, s)
    requires s + 360000 < now <= s + 1080000
    ensures exists c :: c in SweepSightings(st, now, uuid) && HeartbeatGapKey(c) == SilenceKey(zone, s)
  {
    hide SweepSightings;
    var evidence := SweepEvidence(st, now);
    LookbackBeats(zone, st.Events(), now - SWEEP_LOOKBACK_MS);
    var beats := BeatSet(zone, evidence);
    var b :| b in BeatSet(zone, st.Events()) && b.observedAt == s;
    assert b in beats;
    DetectedIffSilentAfter(zone, evidence, GAP, now, s);
    var g :| g in Gaps(zone, evidence, GAP, now) && g.windowStart == s;
    GapIsGrounded(evidence, zone, g, now);
    ZoneGapIsSighted(st, now, uuid, zone, g);
    var c :| c in SweepSightings(st, now, uuid) && c == CandidateOf(g, c.id);
  }

  /** Nor does a sweep reach further back: eighteen minutes, and no more. */
  lemma SweepLooksBack(st: Store, now: Instant, uuid: nat -> Id, c: Candidate)
    requires DistinctIds(st.Events()) && c in SweepSightings(st, now, uuid)
    ensures now - 1080000 <= c.windowStart
  {
    hide SweepSightings;
    SightingIsRealAndGrounded(st, now, uuid, c);
  }

  /** What a sweep sights outlasted the threshold, and lies in the past. */
  lemma SightingIsOverdue(st: Store, now: Instant, uuid: nat -> Id, c: Candidate)
    requires DistinctIds(st.Events()) && ObservedBy(st, now)
    requires c in SweepSightings(st, now, uuid)
    ensures GAP < c.windowEnd - c.windowStart && c.windowEnd <= now
  {
    SightingIsRealAndGrounded(st, now, uuid, c);
    var beats := BeatSet(c.zoneId, st.Events());
    if HeardAfter(beats, c.windowStart) {
      var b :| b in beats && b.observedAt == c.windowEnd;
      assert b in st.Events();
    }
  }

  /** A sighting scores its silence by all the witnesses of the zone, when the lookback reaches a threshold further. */
  lemma SightingScore(st: Store, now: Instant, uuid: nat -> Id, c: Candidate)
    requires DistinctIds(st.Events()) && c in SweepSightings(st, now, uuid)
    requires now - SWEEP_LOOKBACK_MS <= c.windowStart - GAP
    ensures c.confidence == GapConfidence(c.windowEnd - c.windowStart, GAP,
        |WitnessesAt(BeatSet(c.zoneId, st.Events()), c.windowStart, GAP)|)
  {
    hide GapConfidence, WitnessesAt, Gaps, SweepSightings, BeatSet;
    SightingIsReported(st, now, uuid, c);
    var g :| g in Gaps(c.zoneId, SweepEvidence(st, now), GAP, now) && c == CandidateOf(g, c.id);
    LookbackScore(st.Events(), c.zoneId, now - SWEEP_LOOKBACK_MS, now, g);
  }

  lemma LookbackScore(events: seq<Evidence>, zone: ZoneId, since: Instant, now: Instant, g: Gap)
    requires DistinctIds(events) && g in Gaps(zone, Lookback(events, since), GAP, now)
    requires since <= g.windowStart - GAP
    ensures g.confidence == GapConfidence(g.windowEnd - g.windowStart, GAP,
        |WitnessesAt(BeatSet(zone, events), g.windowStart, GAP)|)
  {
    hide GapConfidence, WitnessesAt, Gaps, IsSilence, NamesItsBeats, Lookback;
    LookbackBeats(zone, events, since);
    ReportedIsDescribed(zone, Lookback(events, since), GAP, now, g);
    WindowedWitnesses(BeatSet(zone, events), BeatSet(zone, Lookback(events, since)), since, g.windowStart, GAP);
  }

  /** The witnesses of the zone that fell silent with the beat at s, as the sweep at operation q could know them. */
  ghost function WitnessesOf(ops: seq<Op>, q: nat, zone: ZoneId, s: Instant): set<Identity>
    requires IsRun(EMPTY, ops) && q <= |ops|
  {
    WitnessesAt(BeatSet(zone, StoreAt(ops, q).Events()), s, GAP)
  }

  /** An automatic approval of a sighted silence needs two witnesses, and four when its sweep began within two
      gap-lengths of the silence. */
  lemma ApprovalNeedsWitnesses(ops: seq<Op>, q: nat, c: Candidate)
    requires IsRun(EMPTY, ops) && Sights(ops, q, c) && DecisionForConfidence(c.confidence) == Approve
    requires ObservedBy(StoreAt(ops, q), ops[q].now)
    ensures |WitnessesOf(ops, q, c.zoneId, c.windowStart)| >= 2
    ensures ops[q].now <= c.windowStart + 2 * GAP ==> |WitnessesOf(ops, q, c.zoneId, c.windowStart)| >= 4
  {
    hide IsRun, After, StoreAt, SweepSightings, ObservedBy, DistinctIds, DecisionForConfidence, WitnessesAt, BeatSet;
    StateSound(ops, q);
    TwoWitnesses(StoreAt(ops, q), ops[q].now, ops[q].uuid, c);
    if ops[q].now <= c.windowStart + 2 * GAP {
      FourWitnesses(StoreAt(ops, q), ops[q].now, ops[q].uuid, c);
    }
  }

  lemma FourWitnesses(st: Store, now: Instant, uuid: nat -> Id, c: Candidate)
    requires DistinctIds(st.Events()) && ObservedBy(st, now) && c in SweepSightings(st, now, uuid)
    requires DecisionForConfidence(c.confidence) == Approve && now <= c.windowStart + 2 * GAP
    ensures |WitnessesAt(BeatSet(c.zoneId, st.Events()), c.windowStart, GAP)| >= 4
  {
    hide SweepSightings, GapConfidence, WitnessesAt, BeatSet, ObservedBy, DistinctIds, DecisionForConfidence;
    SightingIsOverdue(st, now, uuid, c);
    SightingScore(st, now, uuid, c);
    WitnessesNeededForApproval(c.windowEnd - c.windowStart, GAP,
        |WitnessesAt(BeatSet(c.zoneId, st.Events()), c.windowStart, GAP)|);
  }

  lemma TwoWitnesses(st: Store, now: Instant, uuid: nat -> Id, c: Candidate)
    requires DistinctIds(st.Events()) && c in SweepSightings(st, now, uuid)
    requires DecisionForConfidence(c.confidence) == Approve
    ensures |WitnessesAt(BeatSet(c.zoneId, st.Events()), c.windowStart, GAP)| >= 2
  {
    hide SweepSightings, GapConfidence, WitnessesAt, Gaps, BeatSet, Lookback, IsSilence, NamesItsBeats,
        DecisionForConfidence;
    var since := now - SWEEP_LOOKBACK_MS;
    SightingIsReported(st, now, uuid, c);
    var g :| g in Gaps(c.zoneId, SweepEvidence(st, now), GAP, now) && c == CandidateOf(g, c.id);
    LookbackBeats(c.zoneId, st.Events(), since);
    ReportedIsDescribed(c.zoneId, SweepEvidence(st, now), GAP, now, g);
    var beats, recent := BeatSet(c.zoneId, st.Events()), BeatSet(c.zoneId, Lookback(st.Events(), since));
    WindowedWitnesses(beats, recent, since, g.windowStart, GAP);
    WitnessesNeededForApproval(g.windowEnd - g.windowStart, GAP, |WitnessesAt(recent, g.windowStart, GAP)|);
  }

  // ---- Which sweep is in time ----

  lemma {:induction false} LastSweepIsABegin(start: Instant, ops: seq<Op>, k: nat)
    requires k <= |ops|
    ensures LastSweep(start, ops, k) == start ||
            exists q :: 0 <= q < k && ops[q].Begin? && ops[q].now == LastSweep(start, ops, k)
  {
    if k > 0 && !ops[k - 1].Begin? {
      LastSweepIsABegin(start, ops, k - 1);
    }
  }

  /** The sweep that begins at operation k is past the threshold of a silence from s. */
  ghost predicate LateSweep(ops: seq<Op>, k: int, s: Instant) {
    0 <= k < |ops| && ops[k].Begin? && s + GAP < ops[k].now
  }

  lemma FirstLateSweep(ops: seq<Op>, p: nat, s: Instant) returns (k: nat)
    requires LateSweep(ops, p, s)
    ensures LateSweep(ops, k, s) && k <= p && forall q :: 0 <= q < k ==> !LateSweep(ops, q, s)
  {
    k := 0;
    while !LateSweep(ops, k, s)
      invariant k <= p
      invariant forall q :: 0 <= q < k ==> !LateSweep(ops, q, s)
      decreases p - k
    {
      k := k + 1;
    }
  }

  ghost predicate GoesOnUntil(ops: seq<Op>, t: Instant) {
    exists n :: 0 <= n < |ops| && Timed(ops[n]) && t < TimeOf(ops[n])
  }

  lemma LateSweepIsNear(start: Instant, ops: seq<Op>, every: nat, s: Instant, k: nat)
    requires OnTime(start, ops, every) && start <= s
    requires LateSweep(ops, k, s) && forall q :: 0 <= q < k ==> !LateSweep(ops, q, s)
    ensures ops[k].now <= s + GAP + every
  {
    LastSweepIsABegin(start, ops, k);
    if LastSweep(start, ops, k) != start {
      var q :| 0 <= q < k && ops[q].Begin? && ops[q].now == LastSweep(start, ops, k);
      assert !LateSweep(ops, q, s);
    }
  }

  /** The first sweep past the threshold begins within one interval of the threshold. */
  lemma {:induction false} LateSweepComesInTime(start: Instant, ops: seq<Op>, every: nat, s: Instant) returns (k: nat)
    requires OnTime(start, ops, every) && start <= s && GoesOnUntil(ops, s + GAP + every)
    ensures LateSweep(ops, k, s) && ops[k].now <= s + GAP + every
    ensures forall q :: 0 <= q < k ==> !LateSweep(ops, q, s)
  {
    var n :| 0 <= n < |ops| && Timed(ops[n]) && s + GAP + every < TimeOf(ops[n]);
    LastSweepIsABegin(start, ops, n);
    var p :| 0 <= p < n && ops[p].Begin? && ops[p].now == LastSweep(start, ops, n);
    k := FirstLateSweep(ops, p, s);
    LateSweepIsNear(start, ops, every, s, k);
  }

  /** No accepted arrival is a beat of the zone within the threshold after s. */
  ghost predicate NoBeatWithin(ops: seq<Op>, zone: ZoneId, s: Instant)
    requires IsRun(EMPTY, ops)
  {
    forall j :: Accepts(ops, j) && IsBeat(zone, ops[j].event) ==>
      ops[j].event.observedAt <= s || s + GAP < ops[j].event.observedAt
  }

  /** Operation a is an accepted beat at s after which its zone is silent for longer than the threshold. */
  ghost predicate FallsSilent(ops: seq<Op>, a: nat, zone: ZoneId, s: Instant)
    requires IsRun(EMPTY, ops)
  {
    && Accepts(ops, a) && IsBeat(zone, ops[a].event) && ops[a].event.observedAt == s
    && NoBeatWithin(ops, zone, s)
  }

  lemma SilenceIsQuiet(ops: seq<Op>, a: nat, k: nat, zone: ZoneId, s: Instant)
    requires IsRun(EMPTY, ops) && FallsSilent(ops, a, zone, s) && a < k <= |ops|
    ensures QuietAfter(StoreAt(ops, k).Events(), zone, s)
  {
    hide StoreAt;
    var e, events := ops[a].event, StoreAt(ops, k).Events();
    AcceptedIsHeld(ops, a, k);
    assert e in BeatSet(zone, events);
    forall b | b in BeatSet(zone, events)
      ensures b.observedAt <= s || s + GAP < b.observedAt
    {
      EventsWereAccepted(ops, k, b);
      var j :| 0 <= j < k && Accepts(ops, j) && ops[j].event == b;
    }
  }

  lemma BeatComesFirst(start: Instant, ops: seq<Op>, every: nat, a: nat, zone: ZoneId, s: Instant, k: nat)
    requires IsRun(EMPTY, ops) && OnTime(start, ops, every) && FallsSilent(ops, a, zone, s)
    ensures start <= s && a < |ops| && (LateSweep(ops, k, s) ==> a < k)
  {
    hide NoBeatWithin, StoreAt;
    assert Timed(ops[a]) && TimeOf(ops[a]) == s;
  }

  /** Within the lookback, every sweep past the threshold sights the silence. */
  lemma LateSweepSights(start: Instant, ops: seq<Op>, every: nat, a: nat, zone: ZoneId, s: Instant, q: nat)
      returns (c: Candidate)
    requires IsRun(EMPTY, ops) && OnTime(start, ops, every) && FallsSilent(ops, a, zone, s)
    requires LateSweep(ops, q, s) && ops[q].now <= s + SWEEP_LOOKBACK_MS
    ensures Sights(ops, q, c) && HeartbeatGapKey(c) == SilenceKey(zone, s)
  {
    hide StateAt, SweepSightings, QuietAfter, FallsSilent, OnTime, DistinctIds, IsRun;
    BeatComesFirst(start, ops, every, a, zone, s, q);
    SilenceIsQuiet(ops, a, q, zone, s);
    StateSound(ops, q);
    LookbackSuffices(StoreAt(ops, q), ops[q].now, ops[q].uuid, zone, s);
    c :| c in SweepSightings(StoreAt(ops, q), ops[q].now, ops[q].uuid) && HeartbeatGapKey(c) == SilenceKey(zone, s);
  }

  // ---- Main results ----

  /** What a recorded silence is: some late sweep sighted it, over the threshold and at most as long as the silence
      had lasted when that sweep began, and its automatic approval needed witnesses. */
  lemma {:induction false} RecordedBySomeLateSweep(start: Instant, ops: seq<Op>, every: nat, zone: ZoneId,
      s: Instant, m: nat)
      returns (q: nat)
    requires IsRun(EMPTY, ops) && OnTime(start, ops, every) && m <= |ops|
    requires SilenceKey(zone, s) in StoreAt(ops, m).candidates.entries
    ensures var c := StoreAt(ops, m).candidates.entries[SilenceKey(zone, s)];
            && q < m && LateSweep(ops, q, s) && Sights(ops, q, c)
            && c.windowStart == s && GAP < c.windowEnd - s <= ops[q].now - s
            && (DecisionForConfidence(c.confidence) == Approve ==>
                  && |WitnessesOf(ops, q, zone, s)| >= 2
                  && (ops[q].now <= s + 2 * GAP ==> |WitnessesOf(ops, q, zone, s)| >= 4))
  {
    hide StateAt, SweepSightings, DecisionForConfidence, OnTime, IsRun;
    RecordedWasSighted(ops, m, zone, s);
    var c := StoreAt(ops, m).candidates.entries[SilenceKey(zone, s)];
    q :| 0 <= q < m && Sights(ops, q, c);
    HeldAreObserved(start, ops, every, q);
    StateSound(ops, q);
    SightingIsOverdue(StoreAt(ops, q), ops[q].now, ops[q].uuid, c);
    if DecisionForConfidence(c.confidence) == Approve {
      ApprovalNeedsWitnesses(ops, q, c);
    }
  }

  lemma NotRecordedBeforeLateSweep(start: Instant, ops: seq<Op>, every: nat, zone: ZoneId, s: Instant, m: nat)
    requires IsRun(EMPTY, ops) && OnTime(start, ops, every) && m <= |ops|
    requires forall q :: 0 <= q < m ==> !LateSweep(ops, q, s)
    ensures SilenceKey(zone, s) !in StoreAt(ops, m).candidates.entries
  {
    hide StoreAt, OnTime, LateSweep, Sights;
    if SilenceKey(zone, s) in StoreAt(ops, m).candidates.entries {
      var q := RecordedBySomeLateSweep(start, ops, every, zone, s, m);
    }
  }

  /** Detection latency. Sweeps begin at most `every` apart, up to two gap-lengths, and a zone falls silent at s. Then
      the first sweep past the threshold begins no later than `every` after the threshold; until it begins the silence
      is not recorded, and once it has finished the silence is, whatever arrives, begins or is recorded meanwhile. */
  lemma {:induction false} DetectionWithinInterval(start: Instant, ops: seq<Op>, every: nat, a: nat, zone: ZoneId,
      s: Instant) returns (k: nat)
    requires IsRun(EMPTY, ops) && OnTime(start, ops, every) && every <= 2 * GAP
    requires FallsSilent(ops, a, zone, s) && GoesOnUntil(ops, s + GAP + every)
    ensures a < k && LateSweep(ops, k, s) && ops[k].now <= s + GAP + every
    ensures forall q :: 0 <= q < k ==> !LateSweep(ops, q, s)
    ensures SilenceKey(zone, s) !in StoreAt(ops, k).candidates.entries
    ensures forall m :: k < m <= |ops| && Finished(ops, k, m) ==>
        SilenceKey(zone, s) in StoreAt(ops, m).candidates.entries
  {
    hide StoreAt, OnTime, Sights, FallsSilent, Finished, GoesOnUntil;
    BeatComesFirst(start, ops, every, a, zone, s, 0);
    k := LateSweepComesInTime(start, ops, every, s);
    BeatComesFirst(start, ops, every, a, zone, s, k);
    NotRecordedBeforeLateSweep(start, ops, every, zone, s, k);
    var c := LateSweepSights(start, ops, every, a, zone, s, k);
    forall m | k < m <= |ops| && Finished(ops, k, m)
      ensures SilenceKey(zone, s) in StoreAt(ops, m).candidates.entries
    {
      FinishedIsRecorded(ops, k, m, c);
    }
  }

  /** The scheduler's own interval, one gap-length: the silence is recorded within two gap-lengths of its beat, and
      if no other sweep begins before that one has finished, with a length of one to two gap-lengths, so that its
      automatic approval needs four distinct silent witnesses. */
  lemma {:induction false} DetectionWithinTwoGaps(start: Instant, ops: seq<Op>, a: nat, zone: ZoneId, s: Instant,
      m: nat)
      returns (k: nat)
    requires IsRun(EMPTY, ops) && OnTime(start, ops, GAP) && m <= |ops|
    requires FallsSilent(ops, a, zone, s) && GoesOnUntil(ops, s + 2 * GAP)
    ensures a < k && LateSweep(ops, k, s) && ops[k].now <= s + 2 * GAP
    ensures forall q :: 0 <= q < k ==> !LateSweep(ops, q, s)
    ensures SilenceKey(zone, s) !in StoreAt(ops, k).candidates.entries
    ensures Finished(ops, k, m) ==> SilenceKey(zone, s) in StoreAt(ops, m).candidates.entries
    ensures Finished(ops, k, m) && (forall q :: k < q < m ==> !ops[q].Begin?) ==>
              var c := StoreAt(ops, m).candidates.entries[SilenceKey(zone, s)];
              && c.windowStart == s && GAP < c.windowEnd - s <= 2 * GAP
              && (DecisionForConfidence(c.confidence) == Approve ==> |WitnessesOf(ops, k, zone, s)| >= 4)
  {
    hide StoreAt, OnTime, Sights, FallsSilent, GoesOnUntil, DecisionForConfidence, WitnessesOf;
    k := DetectionWithinInterval(start, ops, GAP, a, zone, s);
    if Finished(ops, k, m) && forall q :: k < q < m ==> !ops[q].Begin? {
      var q := RecordedBySomeLateSweep(start, ops, GAP, zone, s, m);
      assert q == k;
    }
  }

  /** No sweep is between its beginning and its last recording. */
  ghost predicate Settled(st: State) {
    forall sweep :: sweep in st.inFlight ==> st.inFlight[sweep] == []
  }

  lemma SettledFlightIsOver(st: State, sweep: nat, c: Candidate)
    requires Settled(st)
    ensures !Flies(st, sweep, c)
  {
  }

  /** When no sweep is under way, a silence is recorded exactly when some sweep has begun past its threshold. */
  lemma {:induction false} RecordedIffSweptLate(start: Instant, ops: seq<Op>, every: nat, a: nat, zone: ZoneId,
      s: Instant, m: nat)
    requires IsRun(EMPTY, ops) && OnTime(start, ops, every) && every <= 2 * GAP
    requires FallsSilent(ops, a, zone, s) && m <= |ops| && Settled(StateAt(ops, m))
    ensures SilenceKey(zone, s) in StoreAt(ops, m).candidates.entries <==>
        exists q :: 0 <= q < m && LateSweep(ops, q, s)
  {
    hide StateAt, OnTime, Sights, FallsSilent, LateSweep, Settled, Flies, DecisionForConfidence;
    if SilenceKey(zone, s) in StoreAt(ops, m).candidates.entries {
      var q := RecordedBySomeLateSweep(start, ops, every, zone, s, m);
    }
    if q :| 0 <= q < m && LateSweep(ops, q, s) {
      var k := FirstLateSweep(ops, q, s);
      BeatComesFirst(start, ops, every, a, zone, s, k);
      LateSweepIsNear(start, ops, every, s, k);
      var c := LateSweepSights(start, ops, every, a, zone, s, k);
      RecordedOrFlying(ops, k, m, c);
      SettledFlightIsOver(StateAt(ops, m), ops[k].sweep, c);
    }
  }

  /** The operations before m are those up to the instant t. */
  ghost predicate EndsAt(ops: seq<Op>, m: nat, t: Instant) {
    forall j :: 0 <= j < |ops| && Timed(ops[j]) ==> (j < m <==> TimeOf(ops[j]) <= t)
  }

  /** The lag, exactly: a silence is recorded within `lag` of its threshold if and only if a sweep begins in that
      time. */
  lemma {:induction false} RecordedWithinLagIff(start: Instant, ops: seq<Op>, every: nat, a: nat, zone: ZoneId,
      s: Instant, lag: nat, m: nat)
    requires IsRun(EMPTY, ops) && OnTime(start, ops, every) && every <= 2 * GAP
    requires FallsSilent(ops, a, zone, s) && m <= |ops| && EndsAt(ops, m, s + GAP + lag) && Settled(StateAt(ops, m))
    ensures SilenceKey(zone, s) in StoreAt(ops, m).candidates.entries <==>
              exists q :: 0 <= q < |ops| && ops[q].Begin? && s + GAP < ops[q].now <= s + GAP + lag
  {
    hide StoreAt, StateAt, OnTime, FallsSilent, Settled, IsRun, After;
    RecordedIffSweptLate(start, ops, every, a, zone, s, m);
    SweptLateWithinLag(ops, s, lag, m);
  }

  lemma SweptLateWithinLag(ops: seq<Op>, s: Instant, lag: nat, m: nat)
    requires m <= |ops| && EndsAt(ops, m, s + GAP + lag)
    ensures (exists q :: 0 <= q < m && LateSweep(ops, q, s)) <==>
            exists q :: 0 <= q < |ops| && ops[q].Begin? && s + GAP < ops[q].now <= s + GAP + lag
  {
    if q :| 0 <= q < m && LateSweep(ops, q, s) {
      assert Timed(ops[q]) && TimeOf(ops[q]) == ops[q].now;
    }
    if q :| 0 <= q < |ops| && ops[q].Begin? && s + GAP < ops[q].now <= s + GAP + lag {
      assert Timed(ops[q]) && TimeOf(ops[q]) == ops[q].now;
      assert LateSweep(ops, q, s);
    }
  }
}
