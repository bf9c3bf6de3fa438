/** Silence detection for one zone (apps/api/src/modules/detection/heartbeat.ts). */
module Heartbeat {
  import opened Collections
  import opened Domain
  import opened Ordering

  const HEARTBEAT_INTERVAL_MS := 60 * 1000
  const HEARTBEAT_GAP_MS := 6 * HEARTBEAT_INTERVAL_MS

  // ---- Confidence of a silence ----

  /** Longer silences and more silent witnesses raise the confidence; one witness never passes 0.80. */
  function GapConfidence(observedGapMs: int, thresholdMs: int, silentNodes: nat): int
    requires thresholdMs > 0
  {
    var overrun := MinReal(MaxInt(observedGapMs - thresholdMs, 0) as real / (2 * thresholdMs) as real, 1.0);
    var grown := 0.6 + 0.2 * overrun + 0.06 * (MaxInt(silentNodes - 1, 0) as real);
    var limited := if silentNodes < 2 then MinReal(grown, 0.8) else grown;
    RoundConfidence(MinReal(limited, 0.95))
  }

  // ---- Beats ----

  predicate IsBeat(zone: ZoneId, e: Evidence) {
    e.zoneId == zone && e.source == Sensor
  }

  /** The zone's sensor readings in (instant, id) order. */
  function HeartbeatsFor(zone: ZoneId, evidence: seq<Evidence>): seq<Evidence> {
    Sort(Filter(evidence, e => IsBeat(zone, e)), EvidenceStamp)
  }

  /** The same readings as a set: all that silence detection may depend on. */
  ghost function BeatSet(zone: ZoneId, evidence: seq<Evidence>): set<Evidence> {
    set e | e in evidence && IsBeat(zone, e)
  }

  /** Distinct witnesses heard within the threshold before the silence that starts at beats[start]. */
  function Witnesses(beats: seq<Evidence>, start: nat, gapMs: int): set<Identity>
    requires start < |beats|
  {
    set i | 0 <= i <= start &&
        beats[start].observedAt - beats[i].observedAt <= gapMs :: EvidenceSourceIdentity(beats[i])
  }

  ghost predicate InTimeOrder(beats: seq<Evidence>) {
    forall i, j :: 0 <= i < j < |beats| ==> beats[i].observedAt <= beats[j].observedAt
  }

  method NodesReportingBefore(beats: seq<Evidence>, startIndex: nat, gapMs: int) returns (identities: set<Identity>)
    requires startIndex < |beats|
    requires InTimeOrder(beats)
    ensures identities == Witnesses(beats, startIndex, gapMs)
  {
    identities := {};
    var startedAt := beats[startIndex].observedAt;
    var index: int := startIndex;
    while index >= 0
      invariant -1 <= index <= startIndex
      invariant identities == set i | index < i <= startIndex &&
          startedAt - beats[i].observedAt <= gapMs :: EvidenceSourceIdentity(beats[i])
    {
      var beat := beats[index];
      if startedAt - beat.observedAt > gapMs {
        break;
      }
      identities := identities + {EvidenceSourceIdentity(beat)};
      index := index - 1;
    }
  }

  // ---- Gaps ----

  /** A detected silence; a candidate is one of these under a fresh id. */
  datatype Gap = Gap(zoneId: ZoneId, windowStart: Instant, windowEnd: Instant, confidence: int, evidenceIds: seq<Id>)

  function CandidateOf(g: Gap, id: Id): Candidate {
    Candidate(id, g.zoneId, Outage, g.confidence, g.windowStart, g.windowEnd, g.evidenceIds)
  }

  /** Where the silence after beats[i] ends: at the next beat, or now if there is none. */
  function EndOfSilence(beats: seq<Evidence>, i: nat, now: Instant): Instant
    requires i < |beats|
  {
    if i + 1 < |beats| then beats[i + 1].observedAt else now
  }

  function GapBetween(zone: ZoneId, beats: seq<Evidence>, i: nat, gapMs: int, end: Instant,
      closing: Option<Evidence>): Gap
    requires i < |beats| && gapMs > 0
  {
    var start := beats[i];
    Gap(zone, start.observedAt, end,
        GapConfidence(end - start.observedAt, gapMs, |Witnesses(beats, i, gapMs)|),
        [start.id] + if closing.Some? && closing.value.id != start.id then [closing.value.id] else [])
  }

  function GapAfter(zone: ZoneId, beats: seq<Evidence>, i: nat, gapMs: int, now: Instant): Gap
    requires i < |beats| && gapMs > 0
  {
    GapBetween(zone, beats, i, gapMs, EndOfSilence(beats, i, now), if i + 1 < |beats| then Some(beats[i + 1]) else None)
  }

  /** The silences that start at one of the first n beats. */
  function GapsUpTo(zone: ZoneId, beats: seq<Evidence>, n: nat, gapMs: int, now: Instant): seq<Gap>
    requires n <= |beats| && gapMs > 0
  {
    if n == 0 then []
    else
      GapsUpTo(zone, beats, n - 1, gapMs, now) +
      if EndOfSilence(beats, n - 1, now) - beats[n - 1].observedAt > gapMs
      then [GapAfter(zone, beats, n - 1, gapMs, now)] else []
  }

  function CandidatesOf(gaps: seq<Gap>, uuid: nat -> Id): seq<Candidate> {
    seq(|gaps|, k requires 0 <= k < |gaps| => CandidateOf(gaps[k], uuid(k)))
  }

  lemma NoGapsYet(zone: ZoneId, beats: seq<Evidence>, gapMs: int, now: Instant)
    requires gapMs > 0
    ensures GapsUpTo(zone, beats, 0, gapMs, now) == []
  {
  }

  /** What one more beat adds to the candidates. */
  lemma CandidatesGrow(zone: ZoneId, beats: seq<Evidence>, n: nat, gapMs: int, now: Instant, uuid: nat -> Id)
    requires n < |beats| && gapMs > 0
    ensures var before := CandidatesOf(GapsUpTo(zone, beats, n, gapMs, now), uuid);
            CandidatesOf(GapsUpTo(zone, beats, n + 1, gapMs, now), uuid) ==
            if EndOfSilence(beats, n, now) - beats[n].observedAt > gapMs
            then before + [CandidateOf(GapAfter(zone, beats, n, gapMs, now), uuid(|before|))] else before
  {
  }

  function Gaps(zone: ZoneId, evidence: seq<Evidence>, gapMs: int, now: Instant): seq<Gap> {
    if gapMs <= 0 then []
    else
      var beats := HeartbeatsFor(zone, evidence);
      GapsUpTo(zone, beats, |beats|, gapMs, now)
  }

  method BuildGapCandidate(zone: ZoneId, gapMs: int, beats: seq<Evidence>, startIndex: nat, windowEnd: Instant,
                           closingBeat: Option<Evidence>, id: Id)
    returns (candidate: Candidate)
    requires gapMs > 0 && startIndex < |beats|
    requires InTimeOrder(beats)
    ensures candidate == CandidateOf(GapBetween(zone, beats, startIndex, gapMs, windowEnd, closingBeat), id)
  {
    var startBeat := beats[startIndex];
    var silentNodes := NodesReportingBefore(beats, startIndex, gapMs);
    var evidenceIds := [startBeat.id];
    if closingBeat.Some? && closingBeat.value.id != startBeat.id {
      evidenceIds := evidenceIds + [closingBeat.value.id];
    }
    candidate := Candidate(id, zone, Outage, GapConfidence(windowEnd - startBeat.observedAt, gapMs, |silentNodes|),
                           startBeat.observedAt, windowEnd, evidenceIds);
  }

  lemma BeatsKeepDistinctIds(zone: ZoneId, evidence: seq<Evidence>)
    requires DistinctIds(evidence)
    ensures DistinctIds(Filter(evidence, e => IsBeat(zone, e)))
  {
    var differ := (a: Evidence, b: Evidence) => a.id != b.id;
    FilterPairwise(evidence, e => IsBeat(zone, e), differ);
    var kept := Filter(evidence, e => IsBeat(zone, e));
    forall i, j | 0 <= i < j < |kept|
      ensures kept[i].id != kept[j].id
    {
      assert differ(kept[i], kept[j]);
    }
  }

  lemma IncreasingIsTimely(beats: seq<Evidence>)
    requires Increasing(beats, EvidenceStamp)
    ensures InTimeOrder(beats)
  {
    forall i, j | 0 <= i < j < |beats|
      ensures beats[i].observedAt <= beats[j].observedAt
    {
      assert Before(EvidenceStamp(beats[i]), EvidenceStamp(beats[j]));
    }
  }

  /** Increasing in (instant, id) with no id twice, at any multiplicity of the original. */
  lemma SortKeepsDistinctIds(kept: seq<Evidence>)
    requires DistinctIds(kept)
    ensures DistinctIds(Sort(kept, EvidenceStamp))
  {
    var sorted := Sort(kept, EvidenceStamp);
    SortIncreasing(kept, EvidenceStamp);
    SortElements(kept, EvidenceStamp);
    forall i, j | 0 <= i < j < |sorted|
      ensures sorted[i].id != sorted[j].id
    {
      assert Before(EvidenceStamp(sorted[i]), EvidenceStamp(sorted[j]));
      assert sorted[i] in kept && sorted[j] in kept;
    }
  }

  lemma {:induction false} SortedByInstant(zone: ZoneId, evidence: seq<Evidence>)
    requires DistinctIds(evidence)
    ensures var beats := HeartbeatsFor(zone, evidence);
            && Increasing(beats, EvidenceStamp)
            && InTimeOrder(beats)
            && DistinctIds(beats)
            && Elements(beats) == BeatSet(zone, evidence)
  {
    var kept := Filter(evidence, e => IsBeat(zone, e));
    BeatsKeepDistinctIds(zone, evidence);
    SortIncreasing(kept, EvidenceStamp);
    SortElements(kept, EvidenceStamp);
    SortKeepsDistinctIds(kept);
    IncreasingIsTimely(HeartbeatsFor(zone, evidence));
  }

  /** One pass over the zone's beats; candidate k takes the k-th identifier of the supply. */
  method DetectHeartbeatGapCandidates(zone: ZoneId, evidence: seq<Evidence>, gapMs: int, now: Instant, uuid: nat -> Id)
    returns (candidates: seq<Candidate>)
    requires DistinctIds(evidence)
    ensures candidates == CandidatesOf(Gaps(zone, evidence, gapMs, now), uuid)
  {
    hide GapConfidence, EvidenceSourceIdentity, HeartbeatsFor, Witnesses, GapsUpTo;
    candidates := [];
    if gapMs <= 0 {
      return;
    }
    var beats := HeartbeatsFor(zone, evidence);
    assert InTimeOrder(beats) by {
      SortedByInstant(zone, evidence);
    }
    NoGapsYet(zone, beats, gapMs, now);
    if |beats| == 0 {
      return;
    }
    var index := 1;
    while index < |beats|
      invariant 1 <= index <= |beats|
      invariant candidates == CandidatesOf(GapsUpTo(zone, beats, index - 1, gapMs, now), uuid)
    {
      var previous := beats[index - 1];
      var next := beats[index];
      CandidatesGrow(zone, beats, index - 1, gapMs, now, uuid);
      if next.observedAt - previous.observedAt > gapMs {
        var candidate := BuildGapCandidate(zone, gapMs, beats, index - 1, next.observedAt, Some(next),
            uuid(|candidates|));
        candidates := candidates + [candidate];
      }
      index := index + 1;
    }
    var last := beats[|beats| - 1];
    CandidatesGrow(zone, beats, |beats| - 1, gapMs, now, uuid);
    if now - last.observedAt > gapMs {
      var candidate := BuildGapCandidate(zone, gapMs, beats, |beats| - 1, now, None, uuid(|candidates|));
      candidates := candidates + [candidate];
    }
  }
}
