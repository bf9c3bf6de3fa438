/** What the confidence of a silence can be. */
module GapArithmetic {
  import opened Arithmetic
  import opened Domain
  import opened Heartbeat

  /** How far the silence outgrew the threshold, capped at twice the threshold. */
  function Overrun(observedGapMs: int, thresholdMs: int): (o: int)
    requires thresholdMs > 0
    ensures 0 <= o <= 2 * thresholdMs
  {
    MinInt(MaxInt(observedGapMs - thresholdMs, 0), 2 * thresholdMs)
  }

  /** The overrun in ten-thousandths of confidence, half up: at most 2000. */
  function LengthBonus(observedGapMs: int, thresholdMs: int): int
    requires thresholdMs > 0
  {
    RoundedShare(2000, Overrun(observedGapMs, thresholdMs), 2 * thresholdMs)
  }

  function WitnessBonus(silentNodes: nat): int {
    600 * MaxInt(silentNodes - 1, 0)
  }

  lemma CappedRatio(o: int, t: int, x: int)
    requires t > 0 && o == MinInt(x, 2 * t) && x >= 0
    ensures MinReal(x as real / (2 * t) as real, 1.0) == o as real / (2 * t) as real
  {
    var d := (2 * t) as real;
    var q := x as real / d;
    assert q * d == x as real;
    if x <= 2 * t {
      MultiplicationReflects(q, 1.0, d);
    } else {
      MultiplicationReflects(1.0, q, d);
      assert d / d == 1.0;
    }
  }

  /** The confidence in whole ten-thousandths: a base, a length bonus, a witness bonus, then the ceilings. */
  lemma {:induction false} GapConfidenceInUnits(observedGapMs: int, thresholdMs: int, silentNodes: nat)
    requires thresholdMs > 0
    ensures var raised := 6000 + LengthBonus(observedGapMs, thresholdMs) + WitnessBonus(silentNodes);
            GapConfidence(observedGapMs, thresholdMs, silentNodes) ==
            MinInt(if silentNodes < 2 then MinInt(raised, 8000) else raised, 9500)
    ensures 0 <= LengthBonus(observedGapMs, thresholdMs) <= 2000
  {
    var o := Overrun(observedGapMs, thresholdMs);
    var ratio := o as real / (2 * thresholdMs) as real;
    var extra := MaxInt(silentNodes - 1, 0);
    CappedRatio(o, thresholdMs, MaxInt(observedGapMs - thresholdMs, 0));
    RoundedShareIsRounded(2000, o, 2 * thresholdMs);
    LengthBonusRange(observedGapMs, thresholdMs);
    var grown := 0.6 + 0.2 * ratio + 0.06 * (extra as real);
    assert grown * 10000.0 == 2000.0 * ratio + (6000 + 600 * extra) as real;
    assert RoundConfidence(grown) == 6000 + LengthBonus(observedGapMs, thresholdMs) + WitnessBonus(silentNodes) by {
      ShiftRounding(2000.0 * ratio, 6000 + 600 * extra);
    }
    RoundingCommutesWithMin(grown, 0.8);
    RoundingCommutesWithMin(if silentNodes < 2 then MinReal(grown, 0.8) else grown, 0.95);
    assert RoundConfidence(0.8) == 8000 && RoundConfidence(0.95) == 9500;
  }

  lemma LengthBonusRange(observedGapMs: int, thresholdMs: int)
    requires thresholdMs > 0
    ensures 0 <= LengthBonus(observedGapMs, thresholdMs) <= 2000
  {
    RoundedShareMonotone(2000, 0, Overrun(observedGapMs, thresholdMs), 2 * thresholdMs);
    RoundedShareMonotone(2000, Overrun(observedGapMs, thresholdMs), 2 * thresholdMs, 2 * thresholdMs);
    RoundedShareWhole(2000, 2 * thresholdMs);
  }

  /** Longer silences and more witnesses never lower the confidence; it stays in [0.60, 0.95],
      and a silence with one witness stays at or below 0.80. */
  lemma {:induction false} GapConfidenceBounds(observed: int, longer: int, thresholdMs: int, nodes: nat, more: nat)
    requires thresholdMs > 0 && observed <= longer && nodes <= more
    ensures GapConfidence(observed, thresholdMs, nodes) <= GapConfidence(longer, thresholdMs, more)
    ensures 6000 <= GapConfidence(observed, thresholdMs, nodes) <= 9500
    ensures nodes < 2 ==> GapConfidence(observed, thresholdMs, nodes) <= 8000
  {
    GapConfidenceInUnits(observed, thresholdMs, nodes);
    GapConfidenceInUnits(longer, thresholdMs, more);
    RoundedShareMonotone(2000, Overrun(observed, thresholdMs), Overrun(longer, thresholdMs), 2 * thresholdMs);
  }

  /** A silence no longer than twice the threshold is approved automatically only with at least four
      witnesses; with six or more, any silence is. */
  lemma {:induction false} WitnessesNeededForApproval(observed: int, thresholdMs: int, nodes: nat)
    requires thresholdMs > 0
    ensures observed <= 2 * thresholdMs ==>
              (DecisionForConfidence(GapConfidence(observed, thresholdMs, nodes)) == Approve ==> nodes >= 4)
    ensures nodes >= 6 ==> DecisionForConfidence(GapConfidence(observed, thresholdMs, nodes)) == Approve
    ensures nodes < 2 ==> DecisionForConfidence(GapConfidence(observed, thresholdMs, nodes)) == Escalate
    ensures DecisionForConfidence(GapConfidence(observed, thresholdMs, nodes)) != Reject
  {
    GapConfidenceInUnits(observed, thresholdMs, nodes);
    if observed <= 2 * thresholdMs {
      RoundedShareMonotone(2000, Overrun(observed, thresholdMs), thresholdMs, 2 * thresholdMs);
      RoundedShareIs(2000, thresholdMs, 2 * thresholdMs, 1000);
    }
  }
}
