/**
 * The per-record selection rule of the likelihood: which plays enter the sum and which
 * probability mass each observed category takes. The logistic clear probabilities are
 * inputs here: p1 is the chance of an easy clear or better, p2 that of a hard clear.
 */
module Likelihood {
  import opened Outcomes
  import opened ClearTypes
  import opened Scores
  import opened Charts
  import Ranker

  /** The mass of the observed category; a play without a lamp contributes nothing. */
  function ProbabilityMass(t: ClearType, p1: real, p2: real): (r: Option<real>)
    ensures r.None? <==> t == NoPlay
  {
    match t
    case NoPlay => None
    case Failed => Some(1.0 - p1)
    case Easy => Some(p1 - p2)
    case Hard => Some(p2)
  }

  /** The masses of the three observable categories add up to one, and none is negative when 0 <= p2 <= p1 <= 1. */
  lemma ProbabilityMassPartition(p1: real, p2: real)
    ensures ProbabilityMass(Failed, p1, p2).value + ProbabilityMass(Easy, p1, p2).value
            + ProbabilityMass(Hard, p1, p2).value == 1.0
    ensures 0.0 <= p2 <= p1 <= 1.0 ==>
              forall t :: t != NoPlay ==> ProbabilityMass(t, p1, p2).value >= 0.0
  {
  }

  /** The mass one play contributes: none for a play without a lamp or on a chart the index does not know. */
  function RecordMass(play: Score, index: map<string, Chart>, p1: real, p2: real): (r: Option<real>)
    ensures r.Some? <==> play.clear >= 1 && play.sha256 in index
  {
    var t := GetClearType(play.clear);
    if t == NoPlay || play.sha256 !in index then None
    else ProbabilityMass(t, p1, p2)
  }

  /** Every play the ranker keeps also enters the likelihood, with the mass of its own category. */
  lemma RankedPlayInLikelihood(play: Score, index: map<string, Chart>, p1: real, p2: real)
    requires |Ranker.AchievementOf(play, index)| == 1
    ensures RecordMass(play, index, p1, p2) == ProbabilityMass(Ranker.AchievementOf(play, index)[0].clear, p1, p2)
    ensures RecordMass(play, index, p1, p2) == Some(p1 - p2) || RecordMass(play, index, p1, p2) == Some(p2)
  {
    Ranker.AchievementOfSpec(play, index);
  }

  /** A play on a known chart contributes the mass of its category: 1 - p1 for a failure, p1 - p2 for an easy clear, p2 for a hard clear. */
  lemma RecordMassOfKnownPlay(play: Score, index: map<string, Chart>, p1: real, p2: real)
    requires play.sha256 in index
    ensures 1 <= play.clear <= 3 ==> RecordMass(play, index, p1, p2) == Some(1.0 - p1)
    ensures 4 <= play.clear <= 5 ==> RecordMass(play, index, p1, p2) == Some(p1 - p2)
    ensures 6 <= play.clear ==> RecordMass(play, index, p1, p2) == Some(p2)
  {
  }
}
