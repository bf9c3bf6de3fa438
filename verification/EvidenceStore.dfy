/** The in-memory evidence and candidate maps, and one pass of the heartbeat sweep over them
    (apps/api/src/modules/ingestion/store.ts, apps/api/src/modules/pipeline/scheduler.ts). */
module EvidenceStore {
  import opened Agreement
  import opened Collections
  import opened Domain
  import opened Heartbeat
  import opened SilenceOverTime

  const SWEEP_LOOKBACK_MS := 3 * HEARTBEAT_GAP_MS

  /** A silence is keyed by its start; a reading's candidate by the reading. */
  datatype CandidateKey =
    | SilenceKey(zoneId: ZoneId, windowStart: Instant)
    | ReadingKey(zoneId: ZoneId, status: Reading, idempotencyKey: string)

  function HeartbeatGapKey(c: Candidate): CandidateKey {
    SilenceKey(c.zoneId, c.windowStart)
  }

  function CandidateKeyFor(e: Evidence): CandidateKey {
    ReadingKey(e.zoneId, e.status, e.idempotencyKey)
  }

  datatype TelemetryRequest = TelemetryRequest(
    deviceId: string, providerWallet: string, zoneId: ZoneId, idempotencyKey: string,
    observedAt: Instant, status: Reading, voltage: Option<real>)

  datatype ReporterRequest = ReporterRequest(
    reporterWallet: string, zoneId: ZoneId, idempotencyKey: string, observedAt: Instant, status: Reading)

  function TelemetryEvidence(input: TelemetryRequest, id: Id, providerId: Id): Evidence {
    Evidence(id, providerId, input.zoneId, input.idempotencyKey, Sensor, input.status, input.voltage, None,
             Payload(Some(input.deviceId), None, Some(input.providerWallet)), input.observedAt)
  }

  function ReporterEvidence(input: ReporterRequest, id: Id, providerId: Id): Evidence {
    Evidence(id, providerId, input.zoneId, input.idempotencyKey, Reporter, input.status, None, None,
             Payload(None, Some(input.reporterWallet), None), input.observedAt)
  }

  /** A telemetry request becomes a beat of its zone, at its instant and with its reading, witnessed by its device; a
      report becomes a reading of its zone that is a beat of none, witnessed by its wallet. */
  lemma RequestsBecomeEvidence(t: TelemetryRequest, r: ReporterRequest, id: Id, providerId: Id)
    ensures var e := TelemetryEvidence(t, id, providerId);
            && (forall zone :: IsBeat(zone, e) <==> zone == t.zoneId)
            && e.id == id && e.observedAt == t.observedAt && e.status == t.status &&
                e.idempotencyKey == t.idempotencyKey
            && e.voltage == t.voltage && e.confidenceHint.None?
            && (TrimmedString(Some(t.deviceId)) != "" ==>
                  EvidenceSourceIdentity(e) == Device(Lower(TrimmedString(Some(t.deviceId)))))
            && (TrimmedString(Some(t.deviceId)) == "" && TrimmedString(Some(t.providerWallet)) != "" ==>
                  EvidenceSourceIdentity(e) == Wallet(Lower(TrimmedString(Some(t.providerWallet)))))
    ensures var e := ReporterEvidence(r, id, providerId);
            && (forall zone :: !IsBeat(zone, e))
            && e.id == id && e.zoneId == r.zoneId && e.observedAt == r.observedAt && e.status == r.status
            && e.idempotencyKey == r.idempotencyKey && e.source == Reporter
            && e.voltage.None? && e.confidenceHint.None?
            && (TrimmedString(Some(r.reporterWallet)) != "" ==>
                  EvidenceSourceIdentity(e) == Wallet(Lower(TrimmedString(Some(r.reporterWallet)))))
  {
    assert TrimmedString(None) == "";
    hide TrimmedString, Lower;
  }

  // ---- The state and its steps, as values ----

  datatype Store = Store(evidence: OrderedMap<string, Evidence>, candidates: OrderedMap<CandidateKey, Candidate>) {

    function Events(): seq<Evidence> {
      evidence.Values()
    }

    ghost predicate WellFormed() {
      && DistinctIds(Events())
      && forall k :: k in evidence.entries ==> evidence.entries[k].idempotencyKey == k
    }

    function ZoneEvents(zone: ZoneId): seq<Evidence> {
      Filter(Events(), (e: Evidence) => e.zoneId == zone)
    }

    function FindCandidate(e: Evidence): Option<Candidate> {
      var k := CandidateKeyFor(e);
      if k in candidates.entries then Some(candidates.entries[k]) else None
    }
  }

  ghost predicate FreshId(st: Store, id: Id) {
    forall e :: e in st.Events() ==> e.id != id
  }

  /** Ingesting an event: the first per idempotency key is kept, together with its candidate. */
  ghost function Ingested(st: Store, e: Evidence, candidateId: Id): Store {
    if e.idempotencyKey in st.evidence.entries then st
    else
      var held := st.(evidence := Put(st.evidence, e.idempotencyKey, e));
      match CandidateFor(e, held.ZoneEvents(e.zoneId), candidateId)
      case None => held
      case Some(c) => held.(candidates := Put(st.candidates, CandidateKeyFor(e), c))
  }

  datatype IngestResult = IngestResult(duplicate: bool, event: Evidence, candidate: Option<Candidate>)

  ghost function IngestAnswer(st: Store, e: Evidence, candidateId: Id): IngestResult {
    if e.idempotencyKey in st.evidence.entries then
      var original := st.evidence.entries[e.idempotencyKey];
      IngestResult(true, original, st.FindCandidate(original))
    else
      var held := st.(evidence := Put(st.evidence, e.idempotencyKey, e));
      IngestResult(false, e, CandidateFor(e, held.ZoneEvents(e.zoneId), candidateId))
  }

  predicate IsNew(st: Store, c: Candidate) {
    HeartbeatGapKey(c) !in st.candidates.entries
  }

  function Recorded(st: Store, c: Candidate): Store {
    if IsNew(st, c) then st.(candidates := Put(st.candidates, HeartbeatGapKey(c), c)) else st
  }

  function RecordedAll(st: Store, cs: seq<Candidate>): Store {
    if cs == [] then st else Recorded(RecordedAll(st, cs[..|cs| - 1]), cs[|cs| - 1])
  }

  /** Which of the candidates a run of recordGapCandidate hands back, in order. */
  function HandedBack(st: Store, cs: seq<Candidate>): seq<Candidate> {
    if cs == [] then []
    else
      var init, last := cs[..|cs| - 1], cs[|cs| - 1];
      HandedBack(st, init) + if IsNew(RecordedAll(st, init), last) then [last] else []
  }

  // ---- Grouping by zone ----

  function Grouped(byZone: OrderedMap<ZoneId, seq<Evidence>>, e: Evidence): OrderedMap<ZoneId, seq<Evidence>> {
    Put(byZone, e.zoneId, if e.zoneId in byZone.entries then byZone.entries[e.zoneId] + [e] else [e])
  }

  function GroupByZone(events: seq<Evidence>): OrderedMap<ZoneId, seq<Evidence>> {
    if events == [] then EmptyMap() else Grouped(GroupByZone(events[..|events| - 1]), events[|events| - 1])
  }

  lemma NoGroups()
    ensures GroupByZone([]) == EmptyMap()
  {
  }

  lemma GroupOneMore(events: seq<Evidence>, i: nat)
    requires i < |events|
    ensures GroupByZone(events[..i + 1]) == Grouped(GroupByZone(events[..i]), events[i])
  {
    assert events[..i + 1][..i] == events[..i];
  }

  method GroupEvidenceByZone(events: seq<Evidence>) returns (byZone: OrderedMap<ZoneId, seq<Evidence>>)
    ensures byZone == GroupByZone(events)
  {
    hide GroupByZone;
    byZone := EmptyMap();
    NoGroups();
    var i := 0;
    while i < |events|
      invariant 0 <= i <= |events|
      invariant byZone == GroupByZone(events[..i])
    {
      var e := events[i];
      GroupOneMore(events, i);
      if e.zoneId in byZone.entries {
        byZone := Put(byZone, e.zoneId, byZone.entries[e.zoneId] + [e]);
      } else {
        byZone := Put(byZone, e.zoneId, [e]);
      }
      i := i + 1;
    }
    assert events[..i] == events;
  }

  lemma {:induction false} FilterLast<T(!new)>(s: seq<T>, keep: T -> bool)
    requires s != []
    ensures Filter(s, keep) == Filter(s[..|s| - 1], keep) + if keep(s[|s| - 1]) then [s[|s| - 1]] else []
  {
    if |s| > 1 {
      FilterLast(s[1..], keep);
      assert s[1..][..|s| - 2] == s[..|s| - 1][1..];
    }
  }

  /** Each group is the zone's events in their original order; the zones are those that occur. */
  lemma {:induction false} GroupsAreZones(events: seq<Evidence>, zone: ZoneId)
    ensures zone in GroupByZone(events).entries <==> exists e :: e in events && e.zoneId == zone
    ensures zone in GroupByZone(events).entries ==>
              GroupByZone(events).entries[zone] == Filter(events, (e: Evidence) => e.zoneId == zone)
  {
    if events != [] {
      var init, last := events[..|events| - 1], events[|events| - 1];
      GroupsAreZones(init, zone);
      FilterLast(events, (e: Evidence) => e.zoneId == zone);
      assert events == init + [last];
      assert forall e :: e in events <==> e in init || e == last;
      if zone !in GroupByZone(init).entries {
        NothingKept(init, (e: Evidence) => e.zoneId == zone);
      }
    }
  }

  lemma {:induction false} NothingKept<T(!new)>(s: seq<T>, keep: T -> bool)
    requires forall x :: x in s ==> !keep(x)
    ensures Filter(s, keep) == []
  {
    if s != [] {
      NothingKept(s[1..], keep);
    }
  }

  // ---- One pass of the sweep ----

  function SweepEvidence(st: Store, now: Instant): seq<Evidence> {
    Lookback(st.Events(), now - SWEEP_LOOKBACK_MS)
  }

  function Shifted(uuid: nat -> Id, drawn: nat): nat -> Id {
    (n: nat) => uuid(drawn + n)
  }

  function ZoneSightings(zone: ZoneId, evidence: seq<Evidence>, now: Instant, uuid: nat -> Id): seq<Candidate> {
    CandidatesOf(Gaps(zone, evidence, HEARTBEAT_GAP_MS, now), uuid)
  }

  /** The candidates detected in the first k zones, in zone order. */
  function Sightings(byZone: OrderedMap<ZoneId, seq<Evidence>>, k: nat, now: Instant, uuid: nat -> Id): seq<Candidate>
    requires k <= |byZone.order|
  {
    if k == 0 then []
    else
      var earlier := Sightings(byZone, k - 1, now, uuid);
      var zone := byZone.order[k - 1];
      assert zone in byZone.order;
      earlier + ZoneSightings(zone, byZone.entries[zone], now, Shifted(uuid, |earlier|))
  }

  function SweepSightings(st: Store, now: Instant, uuid: nat -> Id): seq<Candidate> {
    var byZone := GroupByZone(SweepEvidence(st, now));
    Sightings(byZone, |byZone.order|, now, uuid)
  }

  /** The k-th candidate of a sweep, over all its zones, takes the k-th identifier of the supply. */
  lemma {:induction false} SightingTakesItsId(byZone: OrderedMap<ZoneId, seq<Evidence>>, k: nat, now: Instant,
      uuid: nat -> Id, i: nat)
    requires k <= |byZone.order| && i < |Sightings(byZone, k, now, uuid)|
    ensures Sightings(byZone, k, now, uuid)[i].id == uuid(i)
  {
    hide Gaps;
    var earlier, zone := Sightings(byZone, k - 1, now, uuid), byZone.order[k - 1];
    assert zone in byZone.order;
    if i < |earlier| {
      SightingTakesItsId(byZone, k - 1, now, uuid, i);
    } else {
      var supply, n := Shifted(uuid, |earlier|), i - |earlier|;
      assert ZoneSightings(zone, byZone.entries[zone], now, supply)[n].id == supply(n);
    }
  }

  ghost predicate Injective(uuid: nat -> Id) {
    forall m, n :: m != n ==> uuid(m) != uuid(n)
  }

  ghost predicate DistinctCandidateIds(cs: seq<Candidate>) {
    forall i, j :: 0 <= i < j < |cs| ==> cs[i].id != cs[j].id
  }

  /** No two candidates of a sweep share an identifier. */
  lemma {:induction false} SweepIdsDiffer(st: Store, now: Instant, uuid: nat -> Id)
    requires Injective(uuid)
    ensures DistinctCandidateIds(SweepSightings(st, now, uuid))
  {
    hide Sightings, GroupByZone, Injective;
    var byZone, cs := GroupByZone(SweepEvidence(st, now)), SweepSightings(st, now, uuid);
    forall i, j | 0 <= i < j < |cs|
      ensures cs[i].id != cs[j].id
    {
      SightingTakesItsId(byZone, |byZone.order|, now, uuid, i);
      SightingTakesItsId(byZone, |byZone.order|, now, uuid, j);
      SuppliesDiffer(uuid, i, j);
    }
  }

  lemma SuppliesDiffer(uuid: nat -> Id, m: nat, n: nat)
    requires Injective(uuid) && m != n
    ensures uuid(m) != uuid(n)
  {
  }

  lemma {:induction false} HandedBackIdsDiffer(st: Store, cs: seq<Candidate>)
    requires DistinctCandidateIds(cs)
    ensures DistinctCandidateIds(HandedBack(st, cs))
    ensures forall c :: c in HandedBack(st, cs) ==> c in cs
  {
    hide IsNew, RecordedAll;
    if cs != [] {
      var init, last := cs[..|cs| - 1], cs[|cs| - 1];
      HandedBackIdsDiffer(st, init);
      assert cs == init + [last];
      forall c | c in HandedBack(st, init)
        ensures c.id != last.id
      {
        var i :| 0 <= i < |init| && init[i] == c;
        assert cs[i] == c;
      }
    }
  }

  function Swept(st: Store, now: Instant, uuid: nat -> Id): Store {
    RecordedAll(st, SweepSightings(st, now, uuid))
  }

  datatype SweepResult = SweepResult(zones: nat, candidates: nat, newCandidates: nat)

  lemma GroupKeepsDistinctIds(events: seq<Evidence>, zone: ZoneId)
    requires DistinctIds(events) && zone in GroupByZone(events).entries
    ensures DistinctIds(GroupByZone(events).entries[zone])
  {
    GroupsAreZones(events, zone);
    ZoneKeepsDistinctIds(events, zone);
  }

  lemma ZoneKeepsDistinctIds(events: seq<Evidence>, zone: ZoneId)
    requires DistinctIds(events)
    ensures DistinctIds(Filter(events, (e: Evidence) => e.zoneId == zone))
  {
    var differ := (a: Evidence, b: Evidence) => a.id != b.id;
    FilterPairwise(events, (e: Evidence) => e.zoneId == zone, differ);
    var kept := Filter(events, (e: Evidence) => e.zoneId == zone);
    forall i, j | 0 <= i < j < |kept|
      ensures kept[i].id != kept[j].id
    {
      assert differ(kept[i], kept[j]);
    }
  }

  lemma HeldKeepsDistinctIds(st: Store, e: Evidence)
    requires DistinctIds(st.Events()) && e.idempotencyKey !in st.evidence.entries && FreshId(st, e.id)
    ensures DistinctIds(st.(evidence := Put(st.evidence, e.idempotencyKey, e)).Events())
  {
    var events := st.Events();
    assert forall i :: 0 <= i < |events| ==> events[i] in events;
  }

  lemma RecordAllSplits(st: Store, cs: seq<Candidate>, i: nat)
    requires i < |cs|
    ensures RecordedAll(st, cs[..i + 1]) == Recorded(RecordedAll(st, cs[..i]), cs[i])
    ensures HandedBack(st, cs[..i + 1]) == HandedBack(st, cs[..i]) + if IsNew(RecordedAll(st, cs[..i]), cs[i])
        then [cs[i]] else []
  {
    assert cs[..i + 1][..i] == cs[..i];
  }

  lemma RecordNone(st: Store)
    ensures RecordedAll(st, []) == st && HandedBack(st, []) == []
  {
  }

  lemma RecordOneMore(st: Store, cs: seq<Candidate>, c: Candidate)
    ensures RecordedAll(st, cs + [c]) == Recorded(RecordedAll(st, cs), c)
    ensures HandedBack(st, cs + [c]) == HandedBack(st, cs) + if IsNew(RecordedAll(st, cs), c) then [c] else []
  {
    assert (cs + [c])[..|cs + [c]| - 1] == cs;
  }

  lemma {:induction false} RecordAllConcat(st: Store, a: seq<Candidate>, b: seq<Candidate>)
    ensures RecordedAll(st, a + b) == RecordedAll(RecordedAll(st, a), b)
    ensures HandedBack(st, a + b) == HandedBack(st, a) + HandedBack(RecordedAll(st, a), b)
    decreases |b|
  {
    hide RecordedAll, HandedBack, Recorded, IsNew;
    if b == [] {
      RecordNone(RecordedAll(st, a));
      assert a + b == a;
    } else {
      var init, last := b[..|b| - 1], b[|b| - 1];
      RecordAllConcat(st, a, init);
      RecordOneMore(st, a + init, last);
      RecordOneMore(RecordedAll(st, a), init, last);
      assert b == init + [last];
      assert a + b == (a + init) + [last];
    }
  }

  lemma NothingSwept(st: Store, byZone: OrderedMap<ZoneId, seq<Evidence>>, now: Instant, uuid: nat -> Id)
    ensures Sightings(byZone, 0, now, uuid) == [] && RecordedAll(st, []) == st && HandedBack(st, []) == []
  {
  }

  /** What one more zone adds to a sweep. */
  lemma SightingsGrow(st: Store, byZone: OrderedMap<ZoneId, seq<Evidence>>, z: nat, now: Instant, uuid: nat -> Id)
    requires z < |byZone.order| && byZone.order[z] in byZone.entries
    ensures var earlier := Sightings(byZone, z, now, uuid);
            var more := ZoneSightings(byZone.order[z], byZone.entries[byZone.order[z]], now, Shifted(uuid, |earlier|));
            && Sightings(byZone, z + 1, now, uuid) == earlier + more
            && RecordedAll(st, Sightings(byZone, z + 1, now, uuid)) == RecordedAll(RecordedAll(st, earlier), more)
            && HandedBack(st, Sightings(byZone, z + 1, now, uuid)) == HandedBack(st, earlier) +
                HandedBack(RecordedAll(st, earlier), more)
  {
    var earlier := Sightings(byZone, z, now, uuid);
    RecordAllConcat(st, earlier, ZoneSightings(byZone.order[z], byZone.entries[byZone.order[z]], now,
        Shifted(uuid, |earlier|)));
  }

  // ---- The maps themselves ----

  class EvidenceMaps {
    var evidenceByIdempotencyKey: OrderedMap<string, Evidence>
    var candidatesByKey: OrderedMap<CandidateKey, Candidate>

    ghost function State(): Store
      reads this
    {
      Store(evidenceByIdempotencyKey, candidatesByKey)
    }

    constructor ()
      ensures State() == Store(EmptyMap(), EmptyMap())
    {
      evidenceByIdempotencyKey := EmptyMap();
      candidatesByKey := EmptyMap();
    }

    method ListMemoryEvidence(zone: ZoneId) returns (events: seq<Evidence>)
      ensures events == State().ZoneEvents(zone)
      ensures forall e :: e in events <==>
                e.zoneId == zone && exists k :: k in State().evidence.entries && State().evidence.entries[k] == e
    {
      ValuesAreEntries(evidenceByIdempotencyKey);
      events := Filter(evidenceByIdempotencyKey.Values(), (e: Evidence) => e.zoneId == zone);
    }

    method StoreMemoryCandidate(e: Evidence, candidateId: Id) returns (candidate: Option<Candidate>)
      requires State().WellFormed()
      modifies this`candidatesByKey
      ensures candidate == CandidateFor(e, old(State()).ZoneEvents(e.zoneId), candidateId)
      ensures State() == match candidate
                         case None => old(State())
                         case Some(c) =>
                           old(State()).(candidates := Put(old(State()).candidates, CandidateKeyFor(e), c))
    {
      var recent := ListMemoryEvidence(e.zoneId);
      ZoneKeepsDistinctIds(State().Events(), e.zoneId);
      candidate := DetectCandidateFromEvidence(e, recent, candidateId);
      if candidate.Some? {
        candidatesByKey := Put(candidatesByKey, CandidateKeyFor(e), candidate.value);
      }
    }

    method FindMemoryCandidate(e: Evidence) returns (candidate: Option<Candidate>)
      ensures candidate == State().FindCandidate(e)
    {
      var key := CandidateKeyFor(e);
      candidate := if key in candidatesByKey.entries then Some(candidatesByKey.entries[key]) else None;
    }

    method UpsertEvidence(e: Evidence, candidateId: Id) returns (result: IngestResult)
      requires State().WellFormed() && FreshId(State(), e.id)
      modifies this
      ensures State() == Ingested(old(State()), e, candidateId)
      ensures result == IngestAnswer(old(State()), e, candidateId)
      ensures State().WellFormed()
    {
      if e.idempotencyKey in evidenceByIdempotencyKey.entries {
        var existing := evidenceByIdempotencyKey.entries[e.idempotencyKey];
        var found := FindMemoryCandidate(existing);
        result := IngestResult(true, existing, found);
      } else {
        HeldKeepsDistinctIds(State(), e);
        evidenceByIdempotencyKey := Put(evidenceByIdempotencyKey, e.idempotencyKey, e);
        var candidate := StoreMemoryCandidate(e, candidateId);
        result := IngestResult(false, e, candidate);
      }
    }

    method UpsertTelemetryEvidence(input: TelemetryRequest, eventId: Id, providerId: Id, candidateId: Id)
        returns (result: IngestResult)
      requires State().WellFormed() && FreshId(State(), eventId)
      modifies this
      ensures State() == Ingested(old(State()), TelemetryEvidence(input, eventId, providerId), candidateId)
      ensures result == IngestAnswer(old(State()), TelemetryEvidence(input, eventId, providerId), candidateId)
      ensures State().WellFormed()
    {
      result := UpsertEvidence(TelemetryEvidence(input, eventId, providerId), candidateId);
    }

    method UpsertReporterEvidence(input: ReporterRequest, eventId: Id, providerId: Id, candidateId: Id)
        returns (result: IngestResult)
      requires State().WellFormed() && FreshId(State(), eventId)
      modifies this
      ensures State() == Ingested(old(State()), ReporterEvidence(input, eventId, providerId), candidateId)
      ensures result == IngestAnswer(old(State()), ReporterEvidence(input, eventId, providerId), candidateId)
      ensures State().WellFormed()
    {
      result := UpsertEvidence(ReporterEvidence(input, eventId, providerId), candidateId);
    }

    /** Hands the candidate back only when its silence was not recorded before. */
    method RecordGapCandidate(candidate: Candidate) returns (recorded: Option<Candidate>)
      modifies this`candidatesByKey
      ensures State() == Recorded(old(State()), candidate)
      ensures recorded == if IsNew(old(State()), candidate) then Some(candidate) else None
    {
      var key := HeartbeatGapKey(candidate);
      if key in candidatesByKey.entries {
        return None;
      }
      candidatesByKey := Put(candidatesByKey, key, candidate);
      return Some(candidate);
    }

    method ListSweepEvidenceByZone(lookbackMs: int, now: Instant) returns (byZone: OrderedMap<ZoneId, seq<Evidence>>)
      ensures byZone == GroupByZone(Lookback(State().Events(), now - lookbackMs))
      ensures forall zone :: zone in byZone.entries <==>
                exists e :: e in State().Events() && e.zoneId == zone && e.source == Sensor &&
                    now - lookbackMs <= e.observedAt
      ensures forall zone, e :: zone in byZone.entries ==>
                (e in byZone.entries[zone] <==>
                   e in State().Events() && e.zoneId == zone && e.source == Sensor && now - lookbackMs <= e.observedAt)
    {
      var events := Lookback(evidenceByIdempotencyKey.Values(), now - lookbackMs);
      byZone := GroupEvidenceByZone(events);
      forall zone
        ensures zone in byZone.entries <==> exists e :: e in events && e.zoneId == zone
        ensures zone in byZone.entries ==> forall e :: e in byZone.entries[zone] <==> e in events && e.zoneId == zone
      {
        GroupsAreZones(events, zone);
      }
      hide GroupByZone;
    }

    /** One sweep. The candidates handed back, in order, are the ones whose pipeline is run. */
    method RunHeartbeatSweep(now: Instant, uuid: nat -> Id) returns (result: SweepResult, piped: seq<Candidate>)
      requires State().WellFormed()
      modifies this`candidatesByKey
      ensures State() == Swept(old(State()), now, uuid)
      ensures piped == HandedBack(old(State()), SweepSightings(old(State()), now, uuid))
      ensures result == SweepResult(|GroupByZone(SweepEvidence(old(State()), now)).order|,
                                    |SweepSightings(old(State()), now, uuid)|, |piped|)
      ensures Injective(uuid) ==> DistinctCandidateIds(piped)
    {
      hide RecordedAll, HandedBack, ZoneSightings, GroupByZone, Lookback, Injective, DistinctCandidateIds;
      ghost var start := State();
      NothingSwept(start, GroupByZone(SweepEvidence(start, now)), now, uuid);
      var byZone := ListSweepEvidenceByZone(SWEEP_LOOKBACK_MS, now);
      result := SweepResult(|byZone.order|, 0, 0);
      piped := [];
      var z := 0;
      while z < |byZone.order|
        invariant 0 <= z <= |byZone.order|
        invariant byZone == GroupByZone(SweepEvidence(start, now))
        invariant evidenceByIdempotencyKey == start.evidence
        invariant State() == RecordedAll(start, Sightings(byZone, z, now, uuid))
        invariant piped == HandedBack(start, Sightings(byZone, z, now, uuid))
        invariant result == SweepResult(|byZone.order|, |Sightings(byZone, z, now, uuid)|, |piped|)
      {
        var zone := byZone.order[z];
        assert zone in byZone.order;
        LookbackBeats(zone, start.Events(), now - SWEEP_LOOKBACK_MS);
        GroupKeepsDistinctIds(SweepEvidence(start, now), zone);
        ghost var earlier := Sightings(byZone, z, now, uuid);
        var seen, handed := SweepZone(zone, byZone.entries[zone], now, Shifted(uuid, result.candidates));
        SightingsGrow(start, byZone, z, now, uuid);
        piped := piped + handed;
        result := SweepResult(result.zones, result.candidates + seen, result.newCandidates + |handed|);
        z := z + 1;
      }
      if Injective(uuid) {
        SweepIdsDiffer(start, now, uuid);
        HandedBackIdsDiffer(start, SweepSightings(start, now, uuid));
      }
    }

    method SweepZone(zone: ZoneId, evidence: seq<Evidence>, now: Instant, uuid: nat -> Id)
        returns (seen: nat, handed: seq<Candidate>)
      requires DistinctIds(evidence)
      modifies this`candidatesByKey
      ensures State() == RecordedAll(old(State()), ZoneSightings(zone, evidence, now, uuid))
      ensures handed == HandedBack(old(State()), ZoneSightings(zone, evidence, now, uuid))
      ensures seen == |ZoneSightings(zone, evidence, now, uuid)|
    {
      var candidates := DetectHeartbeatGapCandidates(zone, evidence, HEARTBEAT_GAP_MS, now, uuid);
      handed := RecordEach(candidates);
      seen := |candidates|;
    }

    method RecordEach(candidates: seq<Candidate>) returns (handed: seq<Candidate>)
      modifies this`candidatesByKey
      ensures State() == RecordedAll(old(State()), candidates)
      ensures handed == HandedBack(old(State()), candidates)
    {
      handed := [];
      var i := 0;
      while i < |candidates|
        invariant 0 <= i <= |candidates|
        invariant State() == RecordedAll(old(State()), candidates[..i])
        invariant handed == HandedBack(old(State()), candidates[..i])
      {
        RecordAllSplits(old(State()), candidates, i);
        var recorded := RecordGapCandidate(candidates[i]);
        if recorded.Some? {
          handed := handed + [recorded.value];
        }
        i := i + 1;
      }
      assert candidates[..i] == candidates;
    }
  }
}
