/** What silence detection reports, stated on the set of beats alone, without order or loops. */
module Silence {
  import opened Collections
  import opened Domain
  import opened Heartbeat
  import opened Ordering

  ghost predicate HeardAt(beats: set<Evidence>, t: Instant) {
    exists b :: b in beats && b.observedAt == t
  }

  ghost predicate HeardAfter(beats: set<Evidence>, t: Instant) {
    exists b :: b in beats && b.observedAt > t
  }

  ghost predicate QuietBetween(beats: set<Evidence>, from: Instant, to: Instant) {
    forall b :: b in beats ==> b.observedAt <= from || to <= b.observedAt
  }

  /** The beat-free stretch from a beat at s to the next beat, or to now if there is none. */
  ghost predicate IsSilence(beats: set<Evidence>, gapMs: int, now: Instant, s: Instant, e: Instant) {
    && HeardAt(beats, s)
    && e - s > gapMs
    && QuietBetween(beats, s, e)
    && (if HeardAfter(beats, s) then HeardAt(beats, e) else e == now)
  }

  ghost predicate LatestIdAt(beats: set<Evidence>, t: Instant, b: Evidence) {
    b in beats && b.observedAt == t && forall c :: c in beats && c.observedAt == t ==> c.id <= b.id
  }

  ghost predicate EarliestIdAt(beats: set<Evidence>, t: Instant, b: Evidence) {
    b in beats && b.observedAt == t && forall c :: c in beats && c.observedAt == t ==> b.id <= c.id
  }

  ghost function WitnessesAt(beats: set<Evidence>, s: Instant, gapMs: int): set<Identity> {
    set b | b in beats && s - gapMs <= b.observedAt <= s :: EvidenceSourceIdentity(b)
  }

  /** The beats a gap names: the one that opens it and, once it has closed, the one that closes it. */
  ghost predicate NamesItsBeats(beats: set<Evidence>, g: Gap) {
    exists opening :: LatestIdAt(beats, g.windowStart, opening) &&
      if HeardAfter(beats, g.windowStart)
      then exists closing :: EarliestIdAt(beats, g.windowEnd, closing) && g.evidenceIds == [opening.id, closing.id]
      else g.evidenceIds == [opening.id]
  }

  /** Everything a reported gap says, as a statement about the set of beats. */
  ghost predicate Describes(beats: set<Evidence>, zone: ZoneId, gapMs: int, now: Instant, g: Gap)
    requires gapMs > 0
  {
    && g.zoneId == zone
    && IsSilence(beats, gapMs, now, g.windowStart, g.windowEnd)
    && g.confidence == GapConfidence(g.windowEnd - g.windowStart, gapMs, |WitnessesAt(beats, g.windowStart, gapMs)|)
    && NamesItsBeats(beats, g)
  }

  // ---- From positions in the sorted timeline to the set, and back ----

  ghost predicate Timeline(beats: seq<Evidence>) {
    Increasing(beats, EvidenceStamp) && DistinctIds(beats)
  }

  ghost predicate Overlong(beats: seq<Evidence>, i: nat, gapMs: int, now: Instant)
    requires i < |beats|
  {
    EndOfSilence(beats, i, now) - beats[i].observedAt > gapMs
  }

  lemma TimelineOrder(beats: seq<Evidence>, i: nat, j: nat)
    requires Timeline(beats) && i < j < |beats|
    ensures beats[i].observedAt < beats[j].observedAt ||
        (beats[i].observedAt == beats[j].observedAt && beats[i].id < beats[j].id)
  {
    assert Before(EvidenceStamp(beats[i]), EvidenceStamp(beats[j]));
  }

  /** A beat of the set lies before an overlong silence or at its end, never inside it. */
  lemma SplitAt(beats: seq<Evidence>, i: nat, gapMs: int, now: Instant, b: Evidence)
    requires Timeline(beats) && i < |beats| && gapMs > 0 && Overlong(beats, i, gapMs, now)
    requires b in beats
    ensures exists j | 0 <= j < |beats| :: beats[j] == b && (j <= i <==> b.observedAt <= beats[i].observedAt)
    ensures b.observedAt <= beats[i].observedAt || (i + 1 < |beats| && EndOfSilence(beats, i, now) <= b.observedAt)
    ensures b.observedAt == beats[i].observedAt ==> b.id <= beats[i].id
    ensures i + 1 < |beats| && b.observedAt == beats[i + 1].observedAt ==> beats[i + 1].id <= b.id
  {
    var j :| 0 <= j < |beats| && beats[j] == b;
    if j < i {
      TimelineOrder(beats, j, i);
    }
    if i + 1 < j {
      TimelineOrder(beats, i + 1, j);
    }
    if j < i + 1 < |beats| {
      TimelineOrder(beats, j, i + 1);
    }
  }

  lemma WitnessesMatch(beats: seq<Evidence>, i: nat, gapMs: int, now: Instant)
    requires Timeline(beats) && i < |beats| && gapMs > 0 && Overlong(beats, i, gapMs, now)
    ensures Witnesses(beats, i, gapMs) == WitnessesAt(Elements(beats), beats[i].observedAt, gapMs)
  {
    var s := beats[i].observedAt;
    var indexed := Witnesses(beats, i, gapMs);
    var plain := WitnessesAt(Elements(beats), s, gapMs);
    forall w | w in indexed
      ensures w in plain
    {
      var k :| 0 <= k <= i && s - beats[k].observedAt <= gapMs && w == EvidenceSourceIdentity(beats[k]);
      if k < i {
        TimelineOrder(beats, k, i);
      }
      assert beats[k] in Elements(beats);
    }
    forall w | w in plain
      ensures w in indexed
    {
      var b :| b in Elements(beats) && s - gapMs <= b.observedAt <= s && w == EvidenceSourceIdentity(b);
      SplitAt(beats, i, gapMs, now, b);
    }
  }

  lemma PositionDescribes(zone: ZoneId, beats: seq<Evidence>, i: nat, gapMs: int, now: Instant)
    requires Timeline(beats) && i < |beats| && gapMs > 0 && Overlong(beats, i, gapMs, now)
    ensures Describes(Elements(beats), zone, gapMs, now, GapAfter(zone, beats, i, gapMs, now))
  {
    var all := Elements(beats);
    var g := GapAfter(zone, beats, i, gapMs, now);
    WitnessesMatch(beats, i, gapMs, now);
    assert beats[i] in all;
    forall b | b in all
      ensures b.observedAt <= g.windowStart || (i + 1 < |beats| && g.windowEnd <= b.observedAt)
      ensures b.observedAt == g.windowStart ==> b.id <= beats[i].id
      ensures i + 1 < |beats| && b.observedAt == g.windowEnd ==> beats[i + 1].id <= b.id
    {
      SplitAt(beats, i, gapMs, now, b);
    }
    assert LatestIdAt(all, g.windowStart, beats[i]);
    if i + 1 < |beats| {
      assert beats[i + 1] in all;
      assert EarliestIdAt(all, g.windowEnd, beats[i + 1]);
      assert g.evidenceIds == [beats[i].id, beats[i + 1].id];
    }
  }

  /** On a timeline the start of a silence fixes the whole description. */
  lemma DescriptionIsUnique(beats: set<Evidence>, zone: ZoneId, gapMs: int, now: Instant, g: Gap, h: Gap)
    requires gapMs > 0
    requires Describes(beats, zone, gapMs, now, g) && Describes(beats, zone, gapMs, now, h)
    requires g.windowStart == h.windowStart
    ensures g == h
  {
    assert g.windowEnd == h.windowEnd by {
      if HeardAfter(beats, g.windowStart) {
        var b :| b in beats && b.observedAt == g.windowEnd;
        var c :| c in beats && c.observedAt == h.windowEnd;
      }
    }
    var p :| LatestIdAt(beats, g.windowStart, p);
  }

  lemma SilenceHasPosition(beats: seq<Evidence>, gapMs: int, now: Instant, s: Instant, e: Instant) returns (i: nat)
    requires Timeline(beats) && gapMs > 0
    requires IsSilence(Elements(beats), gapMs, now, s, e)
    ensures i < |beats| && beats[i].observedAt == s && Overlong(beats, i, gapMs, now)
  {
    hide EvidenceSourceIdentity;
    var b :| b in Elements(beats) && b.observedAt == s;
    i :| i < |beats| && beats[i] == b;
    while i + 1 < |beats| && beats[i + 1].observedAt == s
      invariant i < |beats| && beats[i].observedAt == s
    {
      i := i + 1;
    }
    if i + 1 < |beats| {
      TimelineOrder(beats, i, i + 1);
      assert beats[i + 1] in Elements(beats);
    } else {
      forall c | c in Elements(beats)
        ensures c.observedAt <= s
      {
        var j :| 0 <= j < |beats| && beats[j] == c;
        if j < i {
          TimelineOrder(beats, j, i);
        }
      }
    }
  }

  lemma {:induction false} ReportedPositions(zone: ZoneId, beats: seq<Evidence>, n: nat, gapMs: int, now: Instant,
      g: Gap)
    requires n <= |beats| && gapMs > 0
    ensures g in GapsUpTo(zone, beats, n, gapMs, now) <==>
            exists i :: 0 <= i < n && Overlong(beats, i, gapMs, now) && g == GapAfter(zone, beats, i, gapMs, now)
  {
    hide GapConfidence, EvidenceSourceIdentity;
    if n > 0 {
      ReportedPositions(zone, beats, n - 1, gapMs, now, g);
    }
  }

  ghost predicate InOrderApart(gaps: seq<Gap>) {
    forall i, j :: 0 <= i < j < |gaps| ==> gaps[i].windowEnd <= gaps[j].windowStart
  }

  lemma {:induction false} EndsByNextBeat(zone: ZoneId, beats: seq<Evidence>, n: nat, gapMs: int, now: Instant, g: Gap)
    requires Timeline(beats) && n <= |beats| && gapMs > 0
    requires g in GapsUpTo(zone, beats, n, gapMs, now)
    ensures g.windowStart < g.windowEnd && (n < |beats| ==> g.windowEnd <= beats[n].observedAt)
  {
    hide GapConfidence, EvidenceSourceIdentity;
    if n < |beats| && n > 0 {
      TimelineOrder(beats, n - 1, n);
    }
    if n > 0 && g in GapsUpTo(zone, beats, n - 1, gapMs, now) {
      EndsByNextBeat(zone, beats, n - 1, gapMs, now, g);
    }
  }

  lemma GapsOneMore(zone: ZoneId, beats: seq<Evidence>, n: nat, gapMs: int, now: Instant)
    requires n < |beats| && gapMs > 0
    ensures GapsUpTo(zone, beats, n + 1, gapMs, now) ==
            GapsUpTo(zone, beats, n, gapMs, now) +
            if Overlong(beats, n, gapMs, now) then [GapAfter(zone, beats, n, gapMs, now)] else []
    ensures GapAfter(zone, beats, n, gapMs, now).windowStart == beats[n].observedAt
  {
  }

  lemma EarlierEndBefore(zone: ZoneId, beats: seq<Evidence>, n: nat, gapMs: int, now: Instant)
    requires Timeline(beats) && n < |beats| && gapMs > 0
    ensures forall g :: g in GapsUpTo(zone, beats, n, gapMs, now) ==> g.windowEnd <= beats[n].observedAt
  {
    hide GapsUpTo, Timeline;
    forall g | g in GapsUpTo(zone, beats, n, gapMs, now)
      ensures g.windowEnd <= beats[n].observedAt
    {
      EndsByNextBeat(zone, beats, n, gapMs, now, g);
    }
  }

  lemma StepKeepsApart(earlier: seq<Gap>, later: seq<Gap>, g: Gap, t: Instant)
    requires InOrderApart(earlier) && (later == earlier || later == earlier + [g]) && g.windowStart == t
    requires forall h :: h in earlier ==> h.windowEnd <= t
    ensures InOrderApart(later)
  {
  }

  lemma {:induction false} ReportedInOrder(zone: ZoneId, beats: seq<Evidence>, n: nat, gapMs: int, now: Instant)
    requires Timeline(beats) && n <= |beats| && gapMs > 0
    ensures InOrderApart(GapsUpTo(zone, beats, n, gapMs, now))
  {
    hide *;
    if n == 0 {
      NoneIsApart(zone, beats, gapMs, now);
    } else {
      ReportedInOrder(zone, beats, n - 1, gapMs, now);
      EarlierEndBefore(zone, beats, n - 1, gapMs, now);
      GapsOneMore(zone, beats, n - 1, gapMs, now);
      StepKeepsApart(GapsUpTo(zone, beats, n - 1, gapMs, now), GapsUpTo(zone, beats, n, gapMs, now),
          GapAfter(zone, beats, n - 1, gapMs, now), beats[n - 1].observedAt);
    }
  }

  lemma NoneIsApart(zone: ZoneId, beats: seq<Evidence>, gapMs: int, now: Instant)
    requires gapMs > 0
    ensures InOrderApart(GapsUpTo(zone, beats, 0, gapMs, now))
  {
    NoGapsYet(zone, beats, gapMs, now);
  }

  lemma ReportedIffDescribed(zone: ZoneId, beats: seq<Evidence>, gapMs: int, now: Instant, g: Gap)
    requires Timeline(beats) && gapMs > 0
    ensures g in GapsUpTo(zone, beats, |beats|, gapMs, now) <==> Describes(Elements(beats), zone, gapMs, now, g)
  {
    ReportedPositions(zone, beats, |beats|, gapMs, now, g);
    if g in GapsUpTo(zone, beats, |beats|, gapMs, now) {
      var i :| 0 <= i < |beats| && Overlong(beats, i, gapMs, now) && g == GapAfter(zone, beats, i, gapMs, now);
      PositionDescribes(zone, beats, i, gapMs, now);
    }
    if Describes(Elements(beats), zone, gapMs, now, g) {
      var i := SilenceHasPosition(beats, gapMs, now, g.windowStart, g.windowEnd);
      PositionDescribes(zone, beats, i, gapMs, now);
      DescriptionIsUnique(Elements(beats), zone, gapMs, now, g, GapAfter(zone, beats, i, gapMs, now));
    }
  }

  lemma {:induction false} ReportedIsDescribed(zone: ZoneId, evidence: seq<Evidence>, gapMs: int, now: Instant, g: Gap)
    requires DistinctIds(evidence) && gapMs > 0
    ensures g in Gaps(zone, evidence, gapMs, now) <==> Describes(BeatSet(zone, evidence), zone, gapMs, now, g)
  {
    SortedByInstant(zone, evidence);
    ReportedIffDescribed(zone, HeartbeatsFor(zone, evidence), gapMs, now, g);
  }

  /** Gap characterisation. Detection reports exactly the beat-free stretches longer than the threshold
      that start at one of the zone's sensor beats and end at the next beat or now; each once, in time
      order, with no overlap, and with everything it says fixed by the set of those beats. */
  lemma {:induction false} GapCharacterisation(zone: ZoneId, evidence: seq<Evidence>, gapMs: int, now: Instant)
    requires DistinctIds(evidence) && gapMs > 0
    ensures forall g :: g in Gaps(zone, evidence, gapMs, now) <==>
        Describes(BeatSet(zone, evidence), zone, gapMs, now, g)
    ensures InOrderApart(Gaps(zone, evidence, gapMs, now))
    ensures forall g :: g in Gaps(zone, evidence, gapMs, now) ==> g.windowStart < g.windowEnd
    ensures Distinct(Gaps(zone, evidence, gapMs, now))
  {
    var beats := HeartbeatsFor(zone, evidence);
    SortedByInstant(zone, evidence);
    ReportedInOrder(zone, beats, |beats|, gapMs, now);
    forall g
      ensures g in Gaps(zone, evidence, gapMs, now) <==> Describes(BeatSet(zone, evidence), zone, gapMs, now, g)
      ensures g in Gaps(zone, evidence, gapMs, now) ==> g.windowStart < g.windowEnd
    {
      ReportedIsDescribed(zone, evidence, gapMs, now, g);
    }
    var gaps := Gaps(zone, evidence, gapMs, now);
    assert forall i :: 0 <= i < |gaps| ==> gaps[i] in gaps;
  }

  /** Reordering the evidence, or adding reporter or other-zone events, changes nothing. */
  lemma {:induction false} OnlyBeatsMatter(zone: ZoneId, first: seq<Evidence>, second: seq<Evidence>, gapMs: int,
      now: Instant)
    requires DistinctIds(first) && DistinctIds(second)
    requires BeatSet(zone, first) == BeatSet(zone, second)
    ensures Gaps(zone, first, gapMs, now) == Gaps(zone, second, gapMs, now)
  {
    SortedByInstant(zone, first);
    SortedByInstant(zone, second);
    IncreasingIsUnique(HeartbeatsFor(zone, first), HeartbeatsFor(zone, second), EvidenceStamp);
  }

  /** What a candidate of a silence says: an outage of its zone, over the silence, scored by its length and witnesses,
      naming the latest beat that opens it and, once it has closed, the earliest that closes it. */
  lemma {:induction false} CandidateSaysSilence(zone: ZoneId, evidence: seq<Evidence>, gapMs: int, now: Instant,
      uuid: nat -> Id, k: nat)
    requires DistinctIds(evidence) && gapMs > 0 && k < |CandidatesOf(Gaps(zone, evidence, gapMs, now), uuid)|
    ensures var c, beats := CandidatesOf(Gaps(zone, evidence, gapMs, now), uuid)[k], BeatSet(zone, evidence);
            && c.id == uuid(k) && c.zoneId == zone && c.status == Outage
            && IsSilence(beats, gapMs, now, c.windowStart, c.windowEnd)
            && c.confidence == GapConfidence(c.windowEnd - c.windowStart, gapMs,
                |WitnessesAt(beats, c.windowStart, gapMs)|)
            && exists opening :: LatestIdAt(beats, c.windowStart, opening) &&
                 if HeardAfter(beats, c.windowStart)
                 then exists closing ::
                        EarliestIdAt(beats, c.windowEnd, closing) && c.evidenceIds == [opening.id, closing.id]
                 else c.evidenceIds == [opening.id]
  {
    hide GapConfidence, EvidenceSourceIdentity, WitnessesAt;
    var g := Gaps(zone, evidence, gapMs, now)[k];
    assert g in Gaps(zone, evidence, gapMs, now);
    ReportedIsDescribed(zone, evidence, gapMs, now, g);
    hide Gaps, IsSilence;
  }
}
