/** A run in which a silence stays unrecorded for almost a whole interval past its threshold. */
module LatencyLimits {
  import opened DetectionLatency
  import opened Domain
  import opened EvidenceStore
  import opened Heartbeat
  import opened SilenceOverTime
  import opened StoreRuns

  const ZONE: ZoneId := 7
  const BEAT := SensorBeat(1, ZONE, 1)
  const IDS: nat -> Id := n => n + 100

  /** Sweeps on the scheduler's interval; the one beat comes just after the first of them. */
  const SLOW: seq<Op> := [
    Begin(0, 0, IDS), Ingest(BEAT, 2), Begin(1, GAP, IDS), Begin(2, 2 * GAP, IDS), RecordNext(2),
        Begin(3, 3 * GAP, IDS)]

  ghost function AfterBeat(): Store {
    Ingested(EMPTY.store, BEAT, 2)
  }

  lemma OneEvent()
    ensures FreshId(EMPTY.store, BEAT.id) && AfterBeat().WellFormed()
    ensures forall e :: e in AfterBeat().Events() <==> e == BEAT
  {
    hide Ingested;
    IngestHolds(EMPTY.store, BEAT, 2);
  }

  /** The third sweep sights the silence after the beat, and nothing else. */
  lemma ThirdSweepSights()
    ensures SightingsOf(AfterBeat(), 2 * GAP, IDS) != []
    ensures forall x :: x in SightingsOf(AfterBeat(), 2 * GAP, IDS) ==>
        HeartbeatGapKey(x.candidate) == SilenceKey(ZONE, 1)
  {
    hide SweepSightings, Ingested, SightingsOf, AfterBeat, EvidenceSourceIdentity;
    OneEvent();
    var st, now := AfterBeat(), 2 * GAP;
    assert BEAT in BeatSet(ZONE, st.Events());
    LookbackSuffices(st, now, IDS, ZONE, 1);
    var c :| c in SweepSightings(st, now, IDS) && HeartbeatGapKey(c) == SilenceKey(ZONE, 1);
    SightingsAreSighted(st, now, IDS, Sighting(c, st.Events(), now));
    forall x | x in SightingsOf(st, now, IDS)
      ensures HeartbeatGapKey(x.candidate) == SilenceKey(ZONE, 1)
    {
      SightingsAreSighted(st, now, IDS, x);
      SightedAtTheBeat(st, now, x.candidate);
    }
  }

  lemma SightedAtTheBeat(st: Store, now: Instant, c: Candidate)
    requires DistinctIds(st.Events()) && (forall e :: e in st.Events() ==> e == BEAT)
    requires c in SweepSightings(st, now, IDS)
    ensures HeartbeatGapKey(c) == SilenceKey(ZONE, 1)
  {
    hide SweepSightings, EvidenceSourceIdentity;
    SightingIsRealAndGrounded(st, now, IDS, c);
    var b :| b in BeatSet(c.zoneId, st.Events()) && b.observedAt == c.windowStart;
  }

  lemma Continues(st: State, op: Op, rest: seq<Op>)
    requires Enabled(st, op) && IsRun(Next(st, op), rest)
    ensures IsRun(st, [op] + rest)
  {
    assert ([op] + rest)[1..] == rest;
  }

  lemma SlowIsARun()
    ensures IsRun(EMPTY, SLOW)
  {
    hide Ingested, SightingsOf, Recorded;
    OneEvent();
    ThirdSweepSights();
    var one := Next(EMPTY, SLOW[0]);
    var two := Next(one, SLOW[1]);
    var three := Next(two, SLOW[2]);
    var four := Next(three, SLOW[3]);
    var five := Next(four, SLOW[4]);
    Continues(five, SLOW[5], []);
    Continues(four, SLOW[4], [SLOW[5]]);
    Continues(three, SLOW[3], [SLOW[4], SLOW[5]]);
    Continues(two, SLOW[2], [SLOW[3], SLOW[4], SLOW[5]]);
    Continues(one, SLOW[1], [SLOW[2], SLOW[3], SLOW[4], SLOW[5]]);
    Continues(EMPTY, SLOW[0], [SLOW[1], SLOW[2], SLOW[3], SLOW[4], SLOW[5]]);
    assert SLOW == [SLOW[0]] + [SLOW[1], SLOW[2], SLOW[3], SLOW[4], SLOW[5]];
  }

  lemma SlowStates()
    ensures IsRun(EMPTY, SLOW)
    ensures StoreAt(SLOW, 1) == EMPTY.store
    ensures StoreAt(SLOW, 4) == AfterBeat()
    ensures 2 in StateAt(SLOW, 4).inFlight && StateAt(SLOW, 4).inFlight[2] == SightingsOf(AfterBeat(), 2 * GAP, IDS)
  {
    hide Ingested, SightingsOf, Recorded, IsRun, After, StateAt;
    SlowIsARun();
    StateAtStart(SLOW);
    StateNext(SLOW, 0);
    StateNext(SLOW, 1);
    StateNext(SLOW, 2);
    StateNext(SLOW, 3);
  }

  lemma SlowIsOnTime()
    ensures OnTime(0, SLOW, GAP)
  {
  }

  /** Sweeps are never more than the scheduler's interval apart, yet the silence is recorded only by the sweep that
      begins 359999 ms, all but a millisecond of the interval, past its threshold. */
  lemma {:induction false} LagIsNearlyOneInterval()
    ensures IsRun(EMPTY, SLOW) && OnTime(0, SLOW, GAP) && FallsSilent(SLOW, 1, ZONE, 1)
    ensures forall m :: 0 <= m <= 4 ==> SilenceKey(ZONE, 1) !in StoreAt(SLOW, m).candidates.entries
    ensures SilenceKey(ZONE, 1) in StoreAt(SLOW, 5).candidates.entries
    ensures SLOW[3].now == (1 + GAP) + 359999
  {
    hide StateAt, Ingested, SightingsOf, IsRun, After, AfterBeat, OnTime;
    SlowStates();
    SlowIsOnTime();
    ThirdSweepSights();
    StateNext(SLOW, 4);
    forall m | 0 <= m <= 4
      ensures SilenceKey(ZONE, 1) !in StoreAt(SLOW, m).candidates.entries
    {
      if m <= 3 {
        NotRecordedBeforeLateSweep(0, SLOW, GAP, ZONE, 1, m);
      } else {
        NothingRecordedYet();
      }
    }
  }

  lemma NothingRecordedYet()
    ensures SilenceKey(ZONE, 1) !in AfterBeat().candidates.entries
  {
    hide Ingested;
    IngestKeepsSilences(EMPTY.store, BEAT, 2);
  }
}
