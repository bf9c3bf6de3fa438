/** Cross-source agreement and per-reading candidates (apps/api/src/modules/detection/rules.ts). */
module Agreement {
  import opened Collections
  import opened Domain
  import opened Ordering

  const AGREEMENT_WINDOW_MS := 10 * 60 * 1000
  const CONFLICT_CONFIDENCE_CEILING := 0.8
  const CROSS_SOURCE_BONUS := 0.08
  const SAME_SOURCE_BONUS := 0.04
  const MAX_AGREEMENT_BONUS := 0.16
  const MAX_AGREED_CONFIDENCE := 0.97

  datatype AgreementScore = AgreementScore(agreeing: nat, conflicting: nat, crossSource: bool, bonus: int,
      supportingIds: seq<Id>)

  predicate IsEarlier(left: Evidence, right: Evidence) {
    Before(EvidenceStamp(left), EvidenceStamp(right))
  }

  // ---- What agreement means, on the set of recent events ----

  /** Another witness of the subject's zone with a definite reading inside the window. */
  predicate Heard(subject: Evidence, other: Evidence) {
    && other.id != subject.id
    && other.zoneId == subject.zoneId
    && other.status != Unknown
    && EvidenceSourceIdentity(other) != EvidenceSourceIdentity(subject)
    && -AGREEMENT_WINDOW_MS <= other.observedAt - subject.observedAt <= AGREEMENT_WINDOW_MS
  }

  predicate Agrees(subject: Evidence, other: Evidence) {
    Heard(subject, other) && other.status == subject.status
  }

  predicate Contradicts(subject: Evidence, other: Evidence) {
    Heard(subject, other) && other.status != subject.status
  }

  /** Who is heard: another reading of the zone, at most ten minutes away, that says up or down and comes from another
      witness. */
  lemma WhoIsHeard(subject: Evidence, other: Evidence)
    ensures Heard(subject, other) <==>
              && other.id != subject.id && other.zoneId == subject.zoneId
              && (other.status == GridUp || other.status == GridDown)
              && EvidenceSourceIdentity(other) != EvidenceSourceIdentity(subject)
              && subject.observedAt - 600000 <= other.observedAt <= subject.observedAt + 600000
  {
    hide EvidenceSourceIdentity;
  }

  /** Definite readings agree with, and contradict, one another. */
  lemma HearingIsMutual(a: Evidence, b: Evidence)
    requires a.status != Unknown && b.status != Unknown
    ensures (Agrees(a, b) <==> Agrees(b, a)) && (Contradicts(a, b) <==> Contradicts(b, a))
    ensures !(Agrees(a, b) && Contradicts(a, b)) && !Agrees(a, a) && !Contradicts(a, a)
  {
    hide EvidenceSourceIdentity;
  }

  ghost function AgreeingWitnesses(subject: Evidence, events: set<Evidence>): set<Identity> {
    set e | e in events && Agrees(subject, e) :: EvidenceSourceIdentity(e)
  }

  ghost function ContradictingWitnesses(subject: Evidence, events: set<Evidence>): set<Identity> {
    set e | e in events && Contradicts(subject, e) :: EvidenceSourceIdentity(e)
  }

  /** The earliest agreeing event of its witness. */
  ghost predicate Represents(subject: Evidence, events: set<Evidence>, e: Evidence) {
    && e in events && Agrees(subject, e)
    && forall o :: o in events && Agrees(subject, o) && EvidenceSourceIdentity(o) == EvidenceSourceIdentity(e) ==>
        o == e || IsEarlier(e, o)
  }

  ghost function Representatives(subject: Evidence, recent: seq<Evidence>): seq<Evidence> {
    Sort(Filter(recent, e => Represents(subject, Elements(recent), e)), EvidenceStamp)
  }

  function CountOther(subject: Evidence, events: seq<Evidence>): (n: nat)
    ensures n <= |events|
    ensures n > 0 <==> exists e :: e in events && e.source != subject.source
  {
    if events == [] then 0
    else (if events[0].source != subject.source then 1 else 0) + CountOther(subject, events[1..])
  }

  function Ids(events: seq<Evidence>): seq<Id> {
    seq(|events|, i requires 0 <= i < |events| => events[i].id)
  }

  /** 0.04 for each agreeing witness, another 0.04 if of the other source, 0.16 at most. */
  function BonusUnits(agreeing: nat, crossing: nat): int {
    MinInt(400 * agreeing + 400 * crossing, 1600)
  }

  function ScoreFrom(subject: Evidence, chosen: seq<Evidence>, conflicting: nat): AgreementScore {
    var crossing := CountOther(subject, chosen);
    AgreementScore(|chosen|, conflicting, crossing > 0, BonusUnits(|chosen|, crossing), Ids(chosen))
  }

  ghost function AgreementOf(subject: Evidence, recent: seq<Evidence>): AgreementScore {
    ScoreFrom(subject, Representatives(subject, recent), |ContradictingWitnesses(subject, Elements(recent))|)
  }

  // ---- The loop ----

  /** byWitness holds, per agreeing witness of the events, its earliest agreeing event. */
  ghost predicate HoldsRepresentatives(subject: Evidence, events: set<Evidence>,
      byWitness: OrderedMap<Identity, Evidence>) {
    && (forall w :: w in byWitness.entries ==>
        Represents(subject, events, byWitness.entries[w]) && EvidenceSourceIdentity(byWitness.entries[w]) == w)
    && (forall e :: e in events && Agrees(subject, e) ==> EvidenceSourceIdentity(e) in byWitness.entries)
  }

  /** One more agreeing event: kept if its witness is new or it is earlier than the one kept. */
  lemma KeepEarliest(subject: Evidence, events: set<Evidence>, byWitness: OrderedMap<Identity, Evidence>, e: Evidence)
    requires HoldsRepresentatives(subject, events, byWitness)
    requires Agrees(subject, e)
    requires forall o :: o in events ==> o.id != e.id
    ensures var w := EvidenceSourceIdentity(e);
            HoldsRepresentatives(subject, events + {e},
              if w !in byWitness.entries || IsEarlier(e, byWitness.entries[w]) then Put(byWitness, w, e) else byWitness)
  {
    hide EvidenceSourceIdentity;
    var w := EvidenceSourceIdentity(e);
    if w !in byWitness.entries {
      assert forall o :: o in events && Agrees(subject, o) ==> EvidenceSourceIdentity(o) != w;
    }
  }

  lemma IgnoreOthers(subject: Evidence, events: set<Evidence>, byWitness: OrderedMap<Identity, Evidence>, e: Evidence)
    requires HoldsRepresentatives(subject, events, byWitness)
    requires !Agrees(subject, e)
    ensures HoldsRepresentatives(subject, events + {e}, byWitness)
  {
  }

  lemma ContradictionsGrow(subject: Evidence, events: set<Evidence>, e: Evidence)
    ensures ContradictingWitnesses(subject, events + {e}) ==
            ContradictingWitnesses(subject, events) + if Contradicts(subject, e) then {EvidenceSourceIdentity(e)}
                else {}
  {
  }

  lemma PrefixGrows(recent: seq<Evidence>, i: nat)
    requires i < |recent| && DistinctIds(recent)
    ensures Elements(recent[..i + 1]) == Elements(recent[..i]) + {recent[i]}
    ensures forall o :: o in Elements(recent[..i]) ==> o.id != recent[i].id
  {
    assert recent[..i + 1] == recent[..i] + [recent[i]];
    forall o | o in Elements(recent[..i])
      ensures o.id != recent[i].id
    {
      var j :| 0 <= j < i && recent[j] == o;
    }
  }

  /** The state of the scan after the first i events. */
  ghost predicate Scanned(subject: Evidence, recent: seq<Evidence>, i: nat,
      byWitness: OrderedMap<Identity, Evidence>, contradicting: set<Identity>)
    requires i <= |recent|
  {
    && HoldsRepresentatives(subject, Elements(recent[..i]), byWitness)
    && contradicting == ContradictingWitnesses(subject, Elements(recent[..i]))
  }

  lemma ScanAgreeing(subject: Evidence, recent: seq<Evidence>, i: nat, byWitness: OrderedMap<Identity, Evidence>,
      contradicting: set<Identity>)
    requires DistinctIds(recent) && i < |recent| && Scanned(subject, recent, i, byWitness, contradicting)
    requires Agrees(subject, recent[i])
    ensures var w := EvidenceSourceIdentity(recent[i]);
            Scanned(subject, recent, i + 1,
              if w !in byWitness.entries || IsEarlier(recent[i], byWitness.entries[w])
                  then Put(byWitness, w, recent[i]) else byWitness,
              contradicting)
  {
    PrefixGrows(recent, i);
    ContradictionsGrow(subject, Elements(recent[..i]), recent[i]);
    KeepEarliest(subject, Elements(recent[..i]), byWitness, recent[i]);
  }

  lemma ScanOther(subject: Evidence, recent: seq<Evidence>, i: nat, byWitness: OrderedMap<Identity, Evidence>,
      contradicting: set<Identity>)
    requires DistinctIds(recent) && i < |recent| && Scanned(subject, recent, i, byWitness, contradicting)
    requires !Agrees(subject, recent[i])
    ensures Scanned(subject, recent, i + 1, byWitness,
              contradicting + if Contradicts(subject, recent[i]) then {EvidenceSourceIdentity(recent[i])} else {})
  {
    PrefixGrows(recent, i);
    ContradictionsGrow(subject, Elements(recent[..i]), recent[i]);
    IgnoreOthers(subject, Elements(recent[..i]), byWitness, recent[i]);
  }

  lemma KeptIffRepresents(subject: Evidence, events: set<Evidence>, byWitness: OrderedMap<Identity, Evidence>,
      e: Evidence)
    requires HoldsRepresentatives(subject, events, byWitness)
    ensures e in byWitness.Values() <==> Represents(subject, events, e)
  {
    hide EvidenceSourceIdentity;
    ValuesAreEntries(byWitness);
    if Represents(subject, events, e) {
      var r := byWitness.entries[EvidenceSourceIdentity(e)];
      assert Represents(subject, events, r);
      assert r == e;
    }
  }

  lemma WitnessesAreKeys(subject: Evidence, events: set<Evidence>, byWitness: OrderedMap<Identity, Evidence>)
    requires HoldsRepresentatives(subject, events, byWitness)
    ensures AgreeingWitnesses(subject, events) == byWitness.entries.Keys
    ensures |byWitness.Values()| == |AgreeingWitnesses(subject, events)|
  {
    hide EvidenceSourceIdentity;
    forall w | w in byWitness.entries
      ensures w in AgreeingWitnesses(subject, events)
    {
      assert Represents(subject, events, byWitness.entries[w]);
    }
    OrderCountsKeys(byWitness);
  }

  /** The values kept, sorted, are the representatives in order; there is one per agreeing witness. */
  lemma KeptAreRepresentatives(subject: Evidence, recent: seq<Evidence>, byWitness: OrderedMap<Identity, Evidence>)
    requires DistinctIds(recent)
    requires HoldsRepresentatives(subject, Elements(recent), byWitness)
    ensures Sort(byWitness.Values(), EvidenceStamp) == Representatives(subject, recent)
    ensures |Representatives(subject, recent)| == |AgreeingWitnesses(subject, Elements(recent))|
  {
    hide EvidenceSourceIdentity;
    var kept := byWitness.Values();
    RepresentativesInOrder(subject, recent);
    KeptAreDistinct(subject, recent, byWitness);
    SortIncreasing(kept, EvidenceStamp);
    SortElements(kept, EvidenceStamp);
    forall e
      ensures e in Sort(kept, EvidenceStamp) <==> e in Representatives(subject, recent)
    {
      KeptIffRepresents(subject, Elements(recent), byWitness, e);
    }
    IncreasingIsUnique(Sort(kept, EvidenceStamp), Representatives(subject, recent), EvidenceStamp);
    WitnessesAreKeys(subject, Elements(recent), byWitness);
  }

  lemma OrderCountsKeys<K(!new), V(!new)>(m: OrderedMap<K, V>)
    ensures |m.order| == |m.entries.Keys|
  {
    assert Elements(m.order) == m.entries.Keys;
    DistinctLength(m.order);
  }

  lemma {:induction false} DistinctLength<T(!new)>(s: seq<T>)
    requires Distinct(s)
    ensures |Elements(s)| == |s|
  {
    if s != [] {
      DistinctLength(s[1..]);
      assert s[0] !in s[1..];
      assert Elements(s) == {s[0]} + Elements(s[1..]);
    }
  }

  lemma SameIdSameEvent(recent: seq<Evidence>, a: Evidence, b: Evidence)
    requires DistinctIds(recent) && a in recent && b in recent && a.id == b.id
    ensures a == b
  {
    var i :| 0 <= i < |recent| && recent[i] == a;
    var j :| 0 <= j < |recent| && recent[j] == b;
  }

  lemma KeptAreDistinct(subject: Evidence, recent: seq<Evidence>, byWitness: OrderedMap<Identity, Evidence>)
    requires DistinctIds(recent)
    requires HoldsRepresentatives(subject, Elements(recent), byWitness)
    ensures DistinctStamps(byWitness.Values(), EvidenceStamp)
  {
    var kept := byWitness.Values();
    forall i, j | 0 <= i < j < |kept|
      ensures EvidenceStamp(kept[i]) != EvidenceStamp(kept[j])
    {
      assert byWitness.order[i] in byWitness.entries && byWitness.order[j] in byWitness.entries;
      if kept[i].id == kept[j].id {
        SameIdSameEvent(recent, kept[i], kept[j]);
      }
    }
  }

  lemma FilteredAreDistinct(subject: Evidence, recent: seq<Evidence>)
    requires DistinctIds(recent)
    ensures DistinctStamps(Filter(recent, e => Represents(subject, Elements(recent), e)), EvidenceStamp)
  {
    var differ := (a: Evidence, b: Evidence) => a.id != b.id;
    FilterPairwise(recent, e => Represents(subject, Elements(recent), e), differ);
    var plain := Filter(recent, e => Represents(subject, Elements(recent), e));
    forall i, j | 0 <= i < j < |plain|
      ensures EvidenceStamp(plain[i]) != EvidenceStamp(plain[j])
    {
      assert differ(plain[i], plain[j]);
    }
  }

  lemma RepresentativeElements(subject: Evidence, recent: seq<Evidence>)
    ensures forall e :: e in Representatives(subject, recent) <==> Represents(subject, Elements(recent), e)
  {
    SortElements(Filter(recent, e => Represents(subject, Elements(recent), e)), EvidenceStamp);
  }

  lemma RepresentativesInOrder(subject: Evidence, recent: seq<Evidence>)
    requires DistinctIds(recent)
    ensures Increasing(Representatives(subject, recent), EvidenceStamp)
    ensures forall e :: e in Representatives(subject, recent) <==> Represents(subject, Elements(recent), e)
  {
    FilteredAreDistinct(subject, recent);
    SortIncreasing(Filter(recent, e => Represents(subject, Elements(recent), e)), EvidenceStamp);
    RepresentativeElements(subject, recent);
  }

  lemma CountOtherSplits(subject: Evidence, events: seq<Evidence>, i: nat)
    requires i < |events|
    ensures CountOther(subject, events[..i + 1]) == CountOther(subject, events[..i]) +
        if events[i].source != subject.source then 1 else 0
  {
    if i == 0 {
      assert events[..1] == [events[0]];
    } else {
      CountOtherSplits(subject, events[1..], i - 1);
      assert events[..i + 1][1..] == events[1..][..i];
      assert events[..i][1..] == events[1..][..i - 1];
    }
  }

  /** The sum over the representatives, before the cap. */
  method SumBonus(subject: Evidence, events: seq<Evidence>) returns (bonus: real)
    ensures bonus == 0.04 * ((|events| + CountOther(subject, events)) as real)
  {
    bonus := 0.0;
    var k := 0;
    while k < |events|
      invariant 0 <= k <= |events|
      invariant bonus == 0.04 * ((k + CountOther(subject, events[..k])) as real)
    {
      CountOtherSplits(subject, events, k);
      bonus := bonus + if events[k].source == subject.source then SAME_SOURCE_BONUS else CROSS_SOURCE_BONUS;
      k := k + 1;
    }
    assert events[..k] == events;
  }

  lemma BonusInUnits(agreeing: nat, crossing: nat)
    ensures RoundConfidence(MinReal(0.04 * ((agreeing + crossing) as real), MAX_AGREEMENT_BONUS)) ==
        BonusUnits(agreeing, crossing)
  {
  }

  /** The scan: per agreeing witness its earliest event, and the witnesses that contradict. */
  method ScanWitnesses(subject: Evidence, recent: seq<Evidence>)
    returns (agreeingByWitness: OrderedMap<Identity, Evidence>, conflictingWitnesses: set<Identity>)
    requires DistinctIds(recent)
    ensures HoldsRepresentatives(subject, Elements(recent), agreeingByWitness)
    ensures conflictingWitnesses == ContradictingWitnesses(subject, Elements(recent))
  {
    hide EvidenceSourceIdentity, Before;
    agreeingByWitness := EmptyMap();
    conflictingWitnesses := {};
    var i := 0;
    while i < |recent|
      invariant 0 <= i <= |recent|
      invariant Scanned(subject, recent, i, agreeingByWitness, conflictingWitnesses)
    {
      var other := recent[i];
      var identity := EvidenceSourceIdentity(other);
      if Heard(subject, other) && other.status == subject.status {
        ScanAgreeing(subject, recent, i, agreeingByWitness, conflictingWitnesses);
        if identity !in agreeingByWitness.entries || IsEarlier(other, agreeingByWitness.entries[identity]) {
          agreeingByWitness := Put(agreeingByWitness, identity, other);
        }
      } else {
        ScanOther(subject, recent, i, agreeingByWitness, conflictingWitnesses);
        if Heard(subject, other) {
          conflictingWitnesses := conflictingWitnesses + {identity};
        }
      }
      i := i + 1;
    }
    assert recent[..i] == recent;
  }

  /** Scan, sort and sum give the declared score. */
  method ScoreCrossSourceAgreement(subject: Evidence, recent: seq<Evidence>) returns (score: AgreementScore)
    requires DistinctIds(recent)
    ensures score == AgreementOf(subject, recent)
  {
    hide Sort, Representatives, ContradictingWitnesses, CountOther, Ids, EvidenceSourceIdentity;
    var agreeingByWitness, conflictingWitnesses := ScanWitnesses(subject, recent);
    KeptAreRepresentatives(subject, recent, agreeingByWitness);
    var agreeingEvents := Sort(agreeingByWitness.Values(), EvidenceStamp);
    var bonus := SumBonus(subject, agreeingEvents);
    BonusInUnits(|agreeingEvents|, CountOther(subject, agreeingEvents));
    score := AgreementScore(|agreeingEvents|, |conflictingWitnesses|, CountOther(subject, agreeingEvents) > 0,
                            RoundConfidence(MinReal(bonus, MAX_AGREEMENT_BONUS)), Ids(agreeingEvents));
  }

  // ---- What the score says ----

  /** Agreement, declared: distinct witnesses are counted, each agreeing witness is represented by its earliest
      agreeing event, and the supporting ids are those of the representatives in strict (time, id) order. */
  lemma {:induction false} AgreementIsDeclared(subject: Evidence, recent: seq<Evidence>)
    requires DistinctIds(recent)
    ensures var score, chosen := AgreementOf(subject, recent), Representatives(subject, recent);
            && Increasing(chosen, EvidenceStamp)
            && (forall e :: e in chosen <==> Represents(subject, Elements(recent), e))
            && score.supportingIds == Ids(chosen)
            && |chosen| == score.agreeing == |AgreeingWitnesses(subject, Elements(recent))|
            && score.conflicting == |ContradictingWitnesses(subject, Elements(recent))|
            && (score.crossSource <==>
                  exists e :: Represents(subject, Elements(recent), e) && e.source != subject.source)
            && score.bonus == BonusUnits(score.agreeing, |OtherSourceSet(subject, chosen)|)
    ensures forall w :: w in AgreeingWitnesses(subject, Elements(recent)) ==>
              exists e :: e in Representatives(subject, recent) && EvidenceSourceIdentity(e) == w
  {
    RepresentativesInOrder(subject, recent);
    var byWitness := CollectRepresentatives(subject, recent);
    KeptAreRepresentatives(subject, recent, byWitness);
    var chosen := Representatives(subject, recent);
    CountOtherIsCardinality(subject, chosen);
    forall w | w in AgreeingWitnesses(subject, Elements(recent))
      ensures exists e :: e in chosen && EvidenceSourceIdentity(e) == w
    {
      assert byWitness.entries[w] in chosen;
    }
  }

  ghost function OtherSourceSet(subject: Evidence, events: seq<Evidence>): set<Evidence> {
    set e | e in events && e.source != subject.source
  }

  lemma FirstIsNew(events: seq<Evidence>)
    requires events != [] && Increasing(events, EvidenceStamp)
    ensures events[0] !in events[1..]
  {
    forall j | 1 <= j < |events|
      ensures events[j] != events[0]
    {
      assert Before(EvidenceStamp(events[0]), EvidenceStamp(events[j]));
    }
  }

  lemma {:induction false} CountOtherIsCardinality(subject: Evidence, events: seq<Evidence>)
    requires Increasing(events, EvidenceStamp)
    ensures CountOther(subject, events) == |OtherSourceSet(subject, events)|
  {
    if events != [] {
      CountOtherIsCardinality(subject, events[1..]);
      FirstIsNew(events);
      assert forall e :: e in events <==> e == events[0] || e in events[1..];
      assert OtherSourceSet(subject, events) ==
             OtherSourceSet(subject, events[1..]) + if events[0].source != subject.source then {events[0]} else {};
    }
  }

  lemma {:induction false} CollectRepresentatives(subject: Evidence, recent: seq<Evidence>)
      returns (byWitness: OrderedMap<Identity, Evidence>)
    requires DistinctIds(recent)
    ensures HoldsRepresentatives(subject, Elements(recent), byWitness)
  {
    if recent == [] {
      byWitness := EmptyMap();
    } else {
      var n := |recent| - 1;
      byWitness := CollectRepresentatives(subject, recent[..n]);
      PrefixGrows(recent, n);
      assert recent[..n + 1] == recent;
      var e := recent[n];
      if Agrees(subject, e) {
        KeepEarliest(subject, Elements(recent[..n]), byWitness, e);
        var w := EvidenceSourceIdentity(e);
        if w !in byWitness.entries || IsEarlier(e, byWitness.entries[w]) {
          byWitness := Put(byWitness, w, e);
        }
      } else {
        IgnoreOthers(subject, Elements(recent[..n]), byWitness, e);
      }
    }
  }

  /** The score does not depend on the order of the recent evidence. */
  lemma {:induction false} AgreementIgnoresOrder(subject: Evidence, first: seq<Evidence>, second: seq<Evidence>)
    requires DistinctIds(first) && DistinctIds(second)
    requires Elements(first) == Elements(second)
    ensures AgreementOf(subject, first) == AgreementOf(subject, second)
  {
    RepresentativesInOrder(subject, first);
    RepresentativesInOrder(subject, second);
    IncreasingIsUnique(Representatives(subject, first), Representatives(subject, second), EvidenceStamp);
  }

  // ---- Candidates from readings ----

  function ConfidenceForEvidence(e: Evidence): real {
    if e.source == Reporter then
      match e.confidenceHint { case Some(h) => h case None => 0.65 }
    else if e.status == GridDown && e.voltage.Some? && e.voltage.value <= 5.0 then 0.95
    else if e.status == GridUp && e.voltage.Some? && e.voltage.value >= 180.0 then 0.9
    else match e.confidenceHint { case Some(h) => h case None => 0.72 }
  }

  function ApplyAgreement(base: real, agreement: AgreementScore): int {
    var corroborated := MinReal(base + agreement.bonus as real / 10000.0, MAX_AGREED_CONFIDENCE);
    var contested := if agreement.conflicting > 0 then MinReal(corroborated, CONFLICT_CONFIDENCE_CEILING)
        else corroborated;
    RoundConfidence(MinReal(MaxReal(contested, 0.0), 1.0))
  }

  function ReadingCandidate(e: Evidence, agreement: AgreementScore, id: Id): Candidate {
    Candidate(id, e.zoneId, if e.status == GridDown then Outage else Restored,
              ApplyAgreement(ConfidenceForEvidence(e), agreement),
              e.observedAt - 5 * 60 * 1000, e.observedAt, [e.id] + agreement.supportingIds)
  }

  ghost function CandidateFor(e: Evidence, recent: seq<Evidence>, id: Id): Option<Candidate> {
    if e.status == Unknown then None else Some(ReadingCandidate(e, AgreementOf(e, recent), id))
  }

  method DetectCandidateFromEvidence(e: Evidence, recent: seq<Evidence>, id: Id) returns (candidate: Option<Candidate>)
    requires DistinctIds(recent)
    ensures candidate == CandidateFor(e, recent, id)
  {
    if e.status == Unknown {
      return None;
    }
    var agreement := ScoreCrossSourceAgreement(e, recent);
    candidate := Some(ReadingCandidate(e, agreement, id));
  }

  lemma AgreedConfidenceBounds(base: real, agreement: AgreementScore)
    requires agreement.bonus >= 0
    ensures 0 <= ApplyAgreement(base, agreement) <= 9700
    ensures agreement.conflicting > 0 ==> ApplyAgreement(base, agreement) <= 8000
    ensures 0.65 <= base ==> 6500 <= ApplyAgreement(base, agreement)
  {
  }

  lemma ContradictionsAreCounted(e: Evidence, recent: seq<Evidence>, o: Evidence)
    requires o in recent && Contradicts(e, o)
    ensures AgreementOf(e, recent).conflicting > 0
  {
    assert EvidenceSourceIdentity(o) in ContradictingWitnesses(e, Elements(recent));
  }

  /** A contested reading never passes 0.80, so it is never approved automatically; a reading ingested through
      the API carries no confidence hint and is never rejected automatically. */
  lemma {:induction false} UncertaintyNeverAutoCommits(e: Evidence, recent: seq<Evidence>, id: Id)
    requires e.status != Unknown
    ensures var c := CandidateFor(e, recent, id).value;
            && 0 <= c.confidence <= 9700
            && ((exists o :: o in recent && Contradicts(e, o)) ==>
                c.confidence <= 8000 && DecisionForConfidence(c.confidence) != Approve)
            && (e.confidenceHint.None? ==> 6500 <= c.confidence && DecisionForConfidence(c.confidence) != Reject)
  {
    hide Contradicts, RoundConfidence;
    AgreedConfidenceBounds(ConfidenceForEvidence(e), AgreementOf(e, recent));
    if o :| o in recent && Contradicts(e, o) {
      ContradictionsAreCounted(e, recent, o);
    }
  }

  ghost predicate StoredInZone(events: seq<Evidence>, zone: ZoneId, id: Id) {
    exists o :: o in events && o.zoneId == zone && o.id == id
  }

  /** Everything a candidate names is the reading itself or an agreeing event of the same zone. */
  lemma {:induction false} CandidateNamesItsZone(e: Evidence, recent: seq<Evidence>, id: Id)
    requires e.status != Unknown
    ensures var c := CandidateFor(e, recent, id).value;
            && c.zoneId == e.zoneId && c.evidenceIds != []
            && forall n :: n in c.evidenceIds ==> n == e.id || StoredInZone(recent, e.zoneId, n)
  {
    hide ApplyAgreement, BonusUnits, CountOther, Represents, Representatives;
    var chosen := Representatives(e, recent);
    RepresentativeElements(e, recent);
    forall n | n in Ids(chosen)
      ensures StoredInZone(recent, e.zoneId, n)
    {
      var k :| 0 <= k < |chosen| && n == chosen[k].id;
      assert chosen[k] in chosen;
      RepresentsItsZone(e, Elements(recent), chosen[k]);
    }
  }

  lemma RepresentsItsZone(subject: Evidence, events: set<Evidence>, e: Evidence)
    requires Represents(subject, events, e)
    ensures e in events && e.zoneId == subject.zoneId
  {
    hide EvidenceSourceIdentity;
  }

  // ---- What a reading's candidate says ----

  /** A definite reading becomes a candidate: an outage exactly when it says the grid is down, over the five minutes up
      to the reading, naming the reading and then one event for each agreeing witness, in order. */
  lemma CandidateSaysReading(e: Evidence, recent: seq<Evidence>, id: Id)
    ensures CandidateFor(e, recent, id).None? <==> e.status == Unknown
    ensures e.status != Unknown ==>
              var c := CandidateFor(e, recent, id).value;
              && c.id == id && c.zoneId == e.zoneId
              && (c.status == Outage <==> e.status == GridDown)
              && c.windowEnd == e.observedAt && c.windowStart == e.observedAt - 300000
              && |c.evidenceIds| == 1 + |Representatives(e, recent)| && c.evidenceIds[0] == e.id
              && forall k :: 0 <= k < |Representatives(e, recent)| ==>
                   c.evidenceIds[k + 1] == Representatives(e, recent)[k].id
  {
    hide ApplyAgreement, Representatives;
  }

  /** What the reading alone is worth, in ten-thousandths: a report 6500 and a sensor 7200, or what they are told; a
      sensor that measures 5 volts or less as down 9500, and 180 or more as up 9000, whatever it is told. */
  ghost predicate IsWorth(e: Evidence, units: int) {
    && (e.source == Reporter && e.confidenceHint.None? ==> units == 6500)
    && (e.source == Sensor && e.status == GridDown && e.voltage.Some? && e.voltage.value <= 5.0 ==> units == 9500)
    && (e.source == Sensor && e.status == GridUp && e.voltage.Some? && e.voltage.value >= 180.0 ==> units == 9000)
    && (e.source == Sensor && !Telling(e) && e.confidenceHint.None? ==> units == 7200)
    && ((e.source == Reporter || !Telling(e)) && e.confidenceHint.Some? ==>
        units == RoundConfidence(e.confidenceHint.value))
  }

  /** The voltage settles the reading. */
  ghost predicate Telling(e: Evidence) {
    e.voltage.Some? && ((e.status == GridDown && e.voltage.value <= 5.0) ||
        (e.status == GridUp && e.voltage.value >= 180.0))
  }

  lemma BaseInUnits(e: Evidence)
    requires e.status != Unknown
    ensures IsWorth(e, RoundConfidence(ConfidenceForEvidence(e)))
  {
    assert RoundConfidence(0.65) == 6500 && RoundConfidence(0.72) == 7200;
    assert RoundConfidence(0.95) == 9500 && RoundConfidence(0.9) == 9000;
    hide RoundConfidence;
  }

  /** Raised by the bonus, held at 9700, or at 8000 under contradiction, and never below nothing. */
  lemma AgreementInUnits(base: real, agreement: AgreementScore)
    ensures ApplyAgreement(base, agreement) ==
            MaxInt(0, MinInt(RoundConfidence(base) + agreement.bonus, if agreement.conflicting > 0 then 8000 else 9700))
  {
    assert (base + agreement.bonus as real / 10000.0) * 10000.0 == base * 10000.0 + agreement.bonus as real;
  }

  /** The confidence of a reading's candidate, exactly. */
  lemma {:induction false} CandidateConfidence(e: Evidence, recent: seq<Evidence>, id: Id) returns (worth: int)
    requires e.status != Unknown
    ensures IsWorth(e, worth)
    ensures var c, agreement := CandidateFor(e, recent, id).value, AgreementOf(e, recent);
            var contradicted := exists o :: o in recent && Contradicts(e, o);
            c.confidence == MaxInt(0, MinInt(worth + agreement.bonus, if contradicted then 8000 else 9700))
  {
    hide RoundConfidence, Contradicts, AgreementOf, ApplyAgreement, ConfidenceForEvidence, IsWorth;
    worth := RoundConfidence(ConfidenceForEvidence(e));
    BaseInUnits(e);
    AgreementInUnits(ConfidenceForEvidence(e), AgreementOf(e, recent));
    ConflictIffContradicted(e, recent);
  }

  lemma ConflictIffContradicted(e: Evidence, recent: seq<Evidence>)
    ensures AgreementOf(e, recent).conflicting > 0 <==> exists o :: o in recent && Contradicts(e, o)
  {
    hide Representatives, Contradicts;
    var witnesses := ContradictingWitnesses(e, Elements(recent));
    if o :| o in recent && Contradicts(e, o) {
      ContradictionsAreCounted(e, recent, o);
    } else {
      assert witnesses == {};
    }
  }
}
