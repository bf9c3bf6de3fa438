/** Epoch scores and pending commitments: the value-only part of apps/api/src/modules/pipeline/service.ts
    and of apps/agent-worker/src/result-sink.ts, which compute them alike. */
module Scores {
  import opened Arithmetic
  import opened Collections
  import opened Domain
  import opened Ordering

  const EPOCH_DURATION_MS := 60 * 60 * 1000

  /** Floors to the hour, also before 1970. */
  function FloorToEpoch(t: Instant): Instant {
    (t / EPOCH_DURATION_MS) * EPOCH_DURATION_MS
  }

  /** The zone and epoch of a score; also stands for its id, which is derived from them. */
  datatype ScoreKey = ScoreKey(zoneId: ZoneId, epochStart: Instant)

  function KeyOf(c: Candidate): ScoreKey {
    ScoreKey(c.zoneId, FloorToEpoch(c.windowEnd))
  }

  predicate InEpoch(key: ScoreKey, c: Candidate) {
    && c.zoneId == key.zoneId
    && key.epochStart <= c.windowEnd < key.epochStart + EPOCH_DURATION_MS
  }

  /** What the evidence hash says about one approved candidate. */
  datatype Vote = Vote(id: Id, status: CandidateStatus, confidence: int, evidenceIds: seq<Id>)

  function VoteOf(c: Candidate): Vote {
    Vote(c.id, c.status, c.confidence, c.evidenceIds)
  }

  function Votes(cs: seq<Candidate>): seq<Vote> {
    seq(|cs|, i requires 0 <= i < |cs| => VoteOf(cs[i]))
  }

  /** The serialised object that is hashed: the score stores its digest, the model keeps the object. */
  datatype HashInput = HashInput(zoneId: ZoneId, epochStart: Instant, votes: seq<Vote>)

  datatype EpochScore = EpochScore(key: ScoreKey, uptimeBps: int, hashed: HashInput)

  function UpVotes(votes: seq<Vote>): (n: nat)
    ensures n <= |votes|
  {
    if votes == [] then 0 else UpVotes(votes[1..]) + if votes[0].status == Restored then 1 else 0
  }

  function UptimeBps(up: nat, total: nat): int {
    if total == 0 then 0 else RoundHalfUp((up as real / total as real) * 10000.0)
  }

  function EpochScoreFor(key: ScoreKey, approved: seq<Candidate>): EpochScore {
    var votes := Votes(approved);
    EpochScore(key, UptimeBps(UpVotes(votes), |votes|), HashInput(key.zoneId, key.epochStart, votes))
  }

  function CandidateStamp(c: Candidate): Stamp {
    Stamp(c.windowEnd, c.id)
  }

  // ---- Facts ----

  /** An epoch start is a whole hour and contains the instant it was floored from. */
  lemma FloorBrackets(t: Instant)
    ensures FloorToEpoch(t) % EPOCH_DURATION_MS == 0
    ensures FloorToEpoch(t) <= t < FloorToEpoch(t) + EPOCH_DURATION_MS
  {
  }

  lemma OneEpochEach(key: ScoreKey, c: Candidate)
    requires key.epochStart % EPOCH_DURATION_MS == 0
    ensures InEpoch(key, c) <==> KeyOf(c) == key
  {
  }

  lemma BpsInUnits(up: nat, total: nat)
    requires 0 < total
    ensures UptimeBps(up, total) == RoundedShare(10000, up, total)
  {
    RoundedShareIsRounded(10000, up, total);
  }

  lemma NearestInUnits(q: int, up: nat, total: nat)
    requires 0 < total && 2 * total * q <= 2 * 10000 * up + total < 2 * total * q + 2 * total
    ensures -(total as int) < 2 * (q * total - 10000 * up) <= total
  {
    assert 2 * total * q == 2 * (q * total);
  }

  /** The basis points are the nearest whole number to 10000 * up / total, halves up, and lie in 0..10000. */
  lemma {:induction false} BpsIsNearest(up: nat, total: nat)
    requires up <= total && 0 < total
    ensures var bps := UptimeBps(up, total);
            && 0 <= bps <= 10000
            && -(total as int) < 2 * (bps * total - 10000 * up) <= total
  {
    BpsInUnits(up, total);
    hide UptimeBps;
    RoundedShareMonotone(10000, 0, up, total);
    RoundedShareMonotone(10000, up, total, total);
    RoundedShareWhole(10000, total);
    DivisionBrackets(2 * 10000 * up + total, 2 * total);
    NearestInUnits(RoundedShare(10000, up, total), up, total);
  }

  /** Uptime and downtime of the same votes add up to 10000, or 10001 when both end in a half. */
  lemma {:induction false} BpsComplement(up: nat, total: nat)
    requires up <= total && 0 < total
    ensures var sum := UptimeBps(up, total) + UptimeBps(total - up, total);
            sum == 10000 || sum == 10001
  {
    hide UptimeBps;
    BpsIsNearest(up, total);
    BpsIsNearest(total - up, total);
    var a, b := UptimeBps(up, total), UptimeBps(total - up, total);
    assert a * total + b * total == (a + b) * total;
    SumBounds(a + b, total);
  }

  lemma SumBounds(sum: int, total: nat)
    requires total > 0 && -(total as int) < sum * total - 10000 * total <= total
    ensures sum == 10000 || sum == 10001
  {
    assert total * sum == sum * total && total * 10001 == 10000 * total + total;
    BracketsOrder(sum, 10001, total * sum, total * sum, total);
    BracketsOrder(10000, sum, total * 10000, total * 10000, total);
  }

  // ---- What a score attests ----

  /** The hashed object names its zone and epoch, and one by one, in order, every listed candidate with its status, its
      confidence and its evidence. */
  lemma HashNamesEveryVote(key: ScoreKey, rows: seq<Candidate>)
    ensures var score := EpochScoreFor(key, rows);
            && score.key == key
            && score.hashed.zoneId == key.zoneId && score.hashed.epochStart == key.epochStart
            && |score.hashed.votes| == |rows|
            && forall i :: 0 <= i < |rows| ==>
                 && score.hashed.votes[i].id == rows[i].id && score.hashed.votes[i].status == rows[i].status
                 && score.hashed.votes[i].confidence == rows[i].confidence
                 && score.hashed.votes[i].evidenceIds == rows[i].evidenceIds
  {
  }

  ghost predicate SameAttested(a: Candidate, b: Candidate) {
    a.id == b.id && a.status == b.status && a.confidence == b.confidence && a.evidenceIds == b.evidenceIds
  }

  /** Two lists hash alike exactly when they agree, place by place, on what is attested of their candidates. */
  lemma {:induction false} SameHashIffSameAttested(key: ScoreKey, a: seq<Candidate>, b: seq<Candidate>)
    ensures EpochScoreFor(key, a).hashed == EpochScoreFor(key, b).hashed <==>
              |a| == |b| && forall i :: 0 <= i < |a| ==> SameAttested(a[i], b[i])
  {
    hide UptimeBps;
    HashNamesEveryVote(key, a);
    HashNamesEveryVote(key, b);
    var u, v := EpochScoreFor(key, a).hashed.votes, EpochScoreFor(key, b).hashed.votes;
    hide EpochScoreFor;
    if |a| == |b| && forall i :: 0 <= i < |a| ==> SameAttested(a[i], b[i]) {
      assert u == v;
    }
  }

  lemma {:induction false} UpVotesAreRestored(rows: seq<Candidate>)
    ensures UpVotes(Votes(rows)) == |Filter(rows, (c: Candidate) => c.status == Restored)|
  {
    if rows != [] {
      UpVotesAreRestored(rows[1..]);
      assert Votes(rows)[1..] == Votes(rows[1..]);
    }
  }

  /** The basis points are the share of the restored among the listed candidates, to the nearest whole number. */
  lemma {:induction false} ScoreIsRestoredShare(key: ScoreKey, rows: seq<Candidate>)
    ensures rows == [] ==> EpochScoreFor(key, rows).uptimeBps == 0
    ensures rows != [] ==>
            var up := |Filter(rows, (c: Candidate) => c.status == Restored)|;
            var bps := EpochScoreFor(key, rows).uptimeBps;
            0 <= bps <= 10000 && -|rows| < 2 * (bps * |rows| - 10000 * up) <= |rows|
  {
    assert UptimeBps(0, 0) == 0;
    hide UptimeBps, Filter;
    UpVotesAreRestored(rows);
    if rows != [] {
      BpsIsNearest(UpVotes(Votes(rows)), |rows|);
    }
  }
}
