/** How detected silences behave as evidence arrives, time passes, and the sweep looks only so far back. */
module SilenceOverTime {
  import opened Collections
  import opened Domain
  import opened GapArithmetic
  import opened Heartbeat
  import opened Silence

  /** The silence starting at s is reported. Its start is its identity (heartbeatGapKey). */
  ghost predicate Detected(zone: ZoneId, evidence: seq<Evidence>, gapMs: int, now: Instant, s: Instant) {
    exists g :: g in Gaps(zone, evidence, gapMs, now) && g.windowStart == s
  }

  /** A beat at s, none within the threshold after it, and the threshold has passed or a later beat proves it did. */
  ghost predicate SilentAfter(beats: set<Evidence>, gapMs: int, now: Instant, s: Instant) {
    && HeardAt(beats, s)
    && (forall b :: b in beats ==> b.observedAt <= s || s + gapMs < b.observedAt)
    && (s + gapMs < now || HeardAfter(beats, s + gapMs))
  }

  lemma NextBeat(beats: set<Evidence>, s: Instant) returns (e: Instant)
    requires HeardAfter(beats, s)
    ensures s < e && HeardAt(beats, e) && QuietBetween(beats, s, e)
  {
    var b :| b in beats && b.observedAt > s;
    var rest := beats - {b};
    if HeardAfter(rest, s) {
      var f := NextBeat(rest, s);
      e := MinInt(f, b.observedAt);
      assert forall c :: c in beats ==> c == b || c in rest;
    } else {
      e := b.observedAt;
      assert forall c :: c in beats ==> c == b || c in rest;
    }
  }

  lemma {:induction false} DetectedIffSilentAfter(zone: ZoneId, evidence: seq<Evidence>, gapMs: int, now: Instant,
      s: Instant)
    requires DistinctIds(evidence) && gapMs > 0
    ensures Detected(zone, evidence, gapMs, now, s) <==> SilentAfter(BeatSet(zone, evidence), gapMs, now, s)
  {
    var beats := BeatSet(zone, evidence);
    GapCharacterisation(zone, evidence, gapMs, now);
    if SilentAfter(beats, gapMs, now, s) {
      var e := now;
      if HeardAfter(beats, s) {
        e := NextBeat(beats, s);
        var c :| c in beats && c.observedAt == e;
        assert c.observedAt > s + gapMs;
      }
      assert IsSilence(beats, gapMs, now, s, e);
      SortedByInstant(zone, evidence);
      var timeline := HeartbeatsFor(zone, evidence);
      var i := SilenceHasPosition(timeline, gapMs, now, s, e);
      var g := GapAfter(zone, timeline, i, gapMs, now);
      PositionDescribes(zone, timeline, i, gapMs, now);
      assert g in Gaps(zone, evidence, gapMs, now);
    }
  }

  // ---- Key persistence ----

  /** New evidence that can reach a sweep at `later`: fresh ids, and no beat of the zone older than `now`. */
  ghost predicate LaterEvidence(zone: ZoneId, evidence: seq<Evidence>, more: seq<Evidence>, now: Instant,
      later: Instant) {
    && DistinctIds(evidence + more)
    && now <= later
    && forall b :: b in BeatSet(zone, more) ==> now <= b.observedAt
  }

  lemma {:induction false} KeyPersists(zone: ZoneId, evidence: seq<Evidence>, more: seq<Evidence>, gapMs: int,
      now: Instant, later: Instant, s: Instant)
    requires DistinctIds(evidence) && gapMs > 0
    requires Detected(zone, evidence, gapMs, now, s) && now - s > gapMs
    requires LaterEvidence(zone, evidence, more, now, later)
    ensures Detected(zone, evidence + more, gapMs, later, s)
  {
    DetectedIffSilentAfter(zone, evidence, gapMs, now, s);
    DetectedIffSilentAfter(zone, evidence + more, gapMs, later, s);
    assert BeatSet(zone, evidence + more) == BeatSet(zone, evidence) + BeatSet(zone, more);
  }

  lemma {:induction false} UnusedId(evidence: seq<Evidence>) returns (id: Id)
    ensures forall e :: e in evidence ==> e.id < id
  {
    id := 0;
    if evidence != [] {
      var rest := UnusedId(evidence[1..]);
      id := MaxInt(rest, evidence[0].id + 1);
      assert forall e :: e in evidence ==> e == evidence[0] || e in evidence[1..];
    }
  }

  ghost predicate SurvivesAll(zone: ZoneId, evidence: seq<Evidence>, gapMs: int, now: Instant, s: Instant) {
    forall more, later :: LaterEvidence(zone, evidence, more, now, later) ==>
        Detected(zone, evidence + more, gapMs, later, s)
  }

  /** Key persistence, exactly. A reported silence is reported again by every later sweep over any evidence
      extended from now on, open or closed, precisely when it had already outlasted the threshold by now.
      (A reading stamped ahead of the clock can end a silence that a reading arriving in between removes.) */
  lemma {:induction false} KeyPersistence(zone: ZoneId, evidence: seq<Evidence>, gapMs: int, now: Instant, s: Instant)
    requires DistinctIds(evidence) && gapMs > 0
    requires Detected(zone, evidence, gapMs, now, s)
    ensures SurvivesAll(zone, evidence, gapMs, now, s) <==> now - s > gapMs
  {
    hide GapConfidence, EvidenceSourceIdentity;
    if now - s > gapMs {
      forall more, later | LaterEvidence(zone, evidence, more, now, later)
        ensures Detected(zone, evidence + more, gapMs, later, s)
      {
        KeyPersists(zone, evidence, more, gapMs, now, later, s);
      }
    } else {
      var id := UnusedId(evidence);
      var breaker := Evidence(id, 0, zone, "", Sensor, GridUp, None, None, Payload(None, None, None),
          MaxInt(now, s + 1));
      assert DistinctIds(evidence + [breaker]);
      assert LaterEvidence(zone, evidence, [breaker], now, now);
      DetectedIffSilentAfter(zone, evidence + [breaker], gapMs, now, s);
      assert breaker in BeatSet(zone, evidence + [breaker]);
    }
  }

  function SensorBeat(id: Id, zone: ZoneId, at: Instant): Evidence {
    Evidence(id, 0, zone, "", Sensor, GridUp, None, None, Payload(None, None, None), at)
  }

  /** A key that vanishes. At minute 2 the store holds a beat of minute 0 and one stamped 4.5 minutes ahead, which
      ingestion admits (it allows 5); the silence between them is reported. A beat of minute 2 then removes it. */
  lemma KeyVanishes(zone: ZoneId)
    ensures var early, ahead, between := SensorBeat(1, zone, 0), SensorBeat(2, zone, 390000),
        SensorBeat(3, zone, 120000);
            && Detected(zone, [early, ahead], HEARTBEAT_GAP_MS, 120000, 0)
            && LaterEvidence(zone, [early, ahead], [between], 120000, 120000)
            && !Detected(zone, [early, ahead] + [between], HEARTBEAT_GAP_MS, 120000, 0)
  {
    hide EvidenceSourceIdentity, Detected;
    var early, ahead, between := SensorBeat(1, zone, 0), SensorBeat(2, zone, 390000), SensorBeat(3, zone, 120000);
    DetectedIffSilentAfter(zone, [early, ahead], HEARTBEAT_GAP_MS, 120000, 0);
    DetectedIffSilentAfter(zone, [early, ahead] + [between], HEARTBEAT_GAP_MS, 120000, 0);
    assert early in BeatSet(zone, [early, ahead]) && ahead in BeatSet(zone, [early, ahead]);
    assert between in BeatSet(zone, [early, ahead] + [between]);
  }

  // ---- The bounded lookback ----

  /** The sensor readings a sweep looks at (listSweepEvidenceByZone, memory branch). */
  function Lookback(evidence: seq<Evidence>, since: Instant): seq<Evidence> {
    Filter(evidence, (e: Evidence) => e.source == Sensor && e.observedAt >= since)
  }

  lemma LookbackBeats(zone: ZoneId, evidence: seq<Evidence>, since: Instant)
    requires DistinctIds(evidence)
    ensures DistinctIds(Lookback(evidence, since))
    ensures BeatSet(zone, Lookback(evidence, since)) == set b | b in BeatSet(zone, evidence) && b.observedAt >= since
  {
    var differ := (a: Evidence, b: Evidence) => a.id != b.id;
    FilterPairwise(evidence, (e: Evidence) => e.source == Sensor && e.observedAt >= since, differ);
    var kept := Lookback(evidence, since);
    forall i, j | 0 <= i < j < |kept|
      ensures kept[i].id != kept[j].id
    {
      assert differ(kept[i], kept[j]);
    }
  }

  /** Everything but the confidence. */
  ghost predicate SameSilence(g: Gap, h: Gap) {
    g.(confidence := h.confidence) == h
  }

  lemma WindowedDescription(beats: set<Evidence>, recent: set<Evidence>, zone: ZoneId, since: Instant, gapMs: int,
      now: Instant, g: Gap)
    requires gapMs > 0 && recent == set b | b in beats && b.observedAt >= since
    requires g.windowStart >= since
    ensures IsSilence(beats, gapMs, now, g.windowStart, g.windowEnd) <==>
        IsSilence(recent, gapMs, now, g.windowStart, g.windowEnd)
    ensures IsSilence(beats, gapMs, now, g.windowStart, g.windowEnd) ==>
        (NamesItsBeats(beats, g) <==> NamesItsBeats(recent, g))
  {
    assert HeardAt(beats, g.windowStart) <==> HeardAt(recent, g.windowStart);
    assert HeardAfter(beats, g.windowStart) <==> HeardAfter(recent, g.windowStart);
    if g.windowEnd >= since {
      assert HeardAt(beats, g.windowEnd) <==> HeardAt(recent, g.windowEnd);
    }
    assert forall b :: LatestIdAt(beats, g.windowStart, b) <==> LatestIdAt(recent, g.windowStart, b);
    if g.windowEnd >= since {
      assert forall b :: EarliestIdAt(beats, g.windowEnd, b) <==> EarliestIdAt(recent, g.windowEnd, b);
    }
  }

  /** The lookback can only lose witnesses. */
  lemma WindowedWitnesses(beats: set<Evidence>, recent: set<Evidence>, since: Instant, s: Instant, gapMs: int)
    requires recent == set b | b in beats && b.observedAt >= since
    ensures |WitnessesAt(recent, s, gapMs)| <= |WitnessesAt(beats, s, gapMs)|
    ensures s - gapMs >= since ==> WitnessesAt(recent, s, gapMs) == WitnessesAt(beats, s, gapMs)
  {
    SubsetIsSmaller(WitnessesAt(recent, s, gapMs), WitnessesAt(beats, s, gapMs));
  }

  /** The reported gap of the lookback that corresponds to a gap of the full history. */
  ghost function Windowed(recent: set<Evidence>, gapMs: int, g: Gap): Gap
    requires gapMs > 0
  {
    g.(confidence := GapConfidence(g.windowEnd - g.windowStart, gapMs, |WitnessesAt(recent, g.windowStart, gapMs)|))
  }

  lemma ConfidenceNamesNoBeats(beats: set<Evidence>, g: Gap, confidence: int)
    ensures NamesItsBeats(beats, g) <==> NamesItsBeats(beats, g.(confidence := confidence))
  {
  }

  /** A description over the beats, rescored, is one over the recent beats, and the other way round. */
  lemma DescriptionMoves(beats: set<Evidence>, recent: set<Evidence>, zone: ZoneId, since: Instant, gapMs: int,
      now: Instant, g: Gap)
    requires gapMs > 0 && recent == set b | b in beats && b.observedAt >= since
    requires g.windowStart >= since
    ensures Describes(beats, zone, gapMs, now, g) ==> Describes(recent, zone, gapMs, now, Windowed(recent, gapMs, g))
    ensures Describes(recent, zone, gapMs, now, g) ==> Describes(beats, zone, gapMs, now, Windowed(beats, gapMs, g))
  {
    WindowedDescription(beats, recent, zone, since, gapMs, now, g);
    ConfidenceNamesNoBeats(recent, g, Windowed(recent, gapMs, g).confidence);
    ConfidenceNamesNoBeats(beats, g, Windowed(beats, gapMs, g).confidence);
  }

  lemma WindowScoresLower(beats: set<Evidence>, recent: set<Evidence>, zone: ZoneId, since: Instant, gapMs: int,
      now: Instant, g: Gap)
    requires gapMs > 0 && recent == set b | b in beats && b.observedAt >= since
    requires Describes(beats, zone, gapMs, now, g)
    ensures Windowed(recent, gapMs, g).confidence <= g.confidence
    ensures g.windowStart - gapMs >= since ==> Windowed(recent, gapMs, g) == g
  {
    WindowedWitnesses(beats, recent, since, g.windowStart, gapMs);
    var length := g.windowEnd - g.windowStart;
    GapConfidenceBounds(length, length, gapMs, |WitnessesAt(recent, g.windowStart, gapMs)|,
        |WitnessesAt(beats, g.windowStart, gapMs)|);
  }

  lemma WindowKeeps(zone: ZoneId, evidence: seq<Evidence>, since: Instant, gapMs: int, now: Instant, g: Gap)
    requires DistinctIds(evidence) && gapMs > 0
    requires g in Gaps(zone, evidence, gapMs, now) && g.windowStart >= since
    ensures var h := Windowed(BeatSet(zone, Lookback(evidence, since)), gapMs, g);
            && h in Gaps(zone, Lookback(evidence, since), gapMs, now)
            && h.confidence <= g.confidence
            && (g.windowStart - gapMs >= since ==> h == g)
  {
    var beats, recent := BeatSet(zone, evidence), BeatSet(zone, Lookback(evidence, since));
    LookbackBeats(zone, evidence, since);
    GapCharacterisation(zone, evidence, gapMs, now);
    GapCharacterisation(zone, Lookback(evidence, since), gapMs, now);
    DescriptionMoves(beats, recent, zone, since, gapMs, now, g);
    WindowScoresLower(beats, recent, zone, since, gapMs, now, g);
  }

  lemma DescriptionWidens(beats: set<Evidence>, recent: set<Evidence>, zone: ZoneId, since: Instant, gapMs: int,
      now: Instant, h: Gap)
    requires gapMs > 0 && recent == set b | b in beats && b.observedAt >= since
    requires Describes(recent, zone, gapMs, now, h)
    ensures h.windowStart >= since
    ensures var g := Windowed(beats, gapMs, h);
            Describes(beats, zone, gapMs, now, g) && SameSilence(g, h) && h.confidence <= g.confidence
  {
    var b :| b in recent && b.observedAt == h.windowStart;
    var g := Windowed(beats, gapMs, h);
    DescriptionMoves(beats, recent, zone, since, gapMs, now, h);
    WindowScoresLower(beats, recent, zone, since, gapMs, now, g);
    assert Windowed(recent, gapMs, g) == h;
  }

  lemma WindowInvents(zone: ZoneId, evidence: seq<Evidence>, since: Instant, gapMs: int, now: Instant, h: Gap)
    requires DistinctIds(evidence) && gapMs > 0
    requires h in Gaps(zone, Lookback(evidence, since), gapMs, now)
    ensures h.windowStart >= since
    ensures exists g :: g in Gaps(zone, evidence, gapMs, now) && SameSilence(g, h) && h.confidence <= g.confidence
  {
    var beats, recent := BeatSet(zone, evidence), BeatSet(zone, Lookback(evidence, since));
    LookbackBeats(zone, evidence, since);
    var g := Windowed(beats, gapMs, h);
    ReportedIsDescribed(zone, Lookback(evidence, since), gapMs, now, h);
    DescriptionWidens(beats, recent, zone, since, gapMs, now, h);
    ReportedIsDescribed(zone, evidence, gapMs, now, g);
  }

  /** Windowed detection refines full history: the lookback reports exactly the silences of the full history
      that start inside it, with the same bounds and beats, never with more confidence, and with the same
      confidence once the silence starts a full threshold inside the lookback. */
  lemma {:induction false} WindowedDetection(zone: ZoneId, evidence: seq<Evidence>, since: Instant, gapMs: int,
      now: Instant)
    requires DistinctIds(evidence) && gapMs > 0
    ensures forall h :: h in Gaps(zone, Lookback(evidence, since), gapMs, now) ==>
              && h.windowStart >= since
              && exists g :: g in Gaps(zone, evidence, gapMs, now) && SameSilence(g, h) && h.confidence <= g.confidence
    ensures forall g :: g in Gaps(zone, evidence, gapMs, now) && g.windowStart >= since ==>
              exists h :: && h in Gaps(zone, Lookback(evidence, since), gapMs, now)
                          && SameSilence(g, h) && h.confidence <= g.confidence
                          && (g.windowStart - gapMs >= since ==> h == g)
  {
    var recent := BeatSet(zone, Lookback(evidence, since));
    forall g | g in Gaps(zone, evidence, gapMs, now) && g.windowStart >= since
      ensures exists h :: && h in Gaps(zone, Lookback(evidence, since), gapMs, now)
                          && SameSilence(g, h) && h.confidence <= g.confidence
                          && (g.windowStart - gapMs >= since ==> h == g)
    {
      WindowKeeps(zone, evidence, since, gapMs, now, g);
      assert SameSilence(g, Windowed(recent, gapMs, g));
    }
    forall h | h in Gaps(zone, Lookback(evidence, since), gapMs, now)
      ensures h.windowStart >= since
      ensures exists g :: g in Gaps(zone, evidence, gapMs, now) && SameSilence(g, h) && h.confidence <= g.confidence
    {
      WindowInvents(zone, evidence, since, gapMs, now, h);
    }
  }
}
