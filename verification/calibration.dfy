/**
 * The level calibrator: the mean easy-clear difficulty of every display level of one
 * category, indexed by level number from 0.
 */
module Calibration {
  import opened Outcomes
  import opened Charts

  /** Dividing by the size of an empty level bucket raises a division by zero. */
  datatype CalibrationError = EmptyBucket(level: nat)

  /** The chart's two-character prefix equals the filter; a filter of any other length matches no chart. */
  predicate InCategory(c: Chart, filter: string)
  {
    c.displayLevel.prefix == filter
  }

  /** Length of the bucket lists after scanning `charts`: one more than the largest level seen, or 0. */
  function Span(charts: seq<Chart>, filter: string): nat
  {
    if |charts| == 0 then 0
    else
      var s := Span(charts[..|charts| - 1], filter);
      var last := charts[|charts| - 1];
      if InCategory(last, filter) && last.displayLevel.level >= s then last.displayLevel.level + 1 else s
  }

  /** Number of charts of the category at level `lvl`. */
  function BucketCount(charts: seq<Chart>, filter: string, lvl: nat): nat
  {
    if |charts| == 0 then 0
    else
      var last := charts[|charts| - 1];
      BucketCount(charts[..|charts| - 1], filter, lvl)
        + (if InCategory(last, filter) && last.displayLevel.level == lvl then 1 else 0)
  }

  /** Sum of the easy-clear difficulties of the charts of the category at level `lvl`. */
  function BucketSum(charts: seq<Chart>, filter: string, lvl: nat): real
  {
    if |charts| == 0 then 0.0
    else
      var last := charts[|charts| - 1];
      BucketSum(charts[..|charts| - 1], filter, lvl)
        + (if InCategory(last, filter) && last.displayLevel.level == lvl then last.betaEasy else 0.0)
  }

  predicate InBucket(c: Chart, filter: string, lvl: nat)
  {
    InCategory(c, filter) && c.displayLevel.level == lvl
  }

  /** The span is one more than the largest level in the category, or 0 when the category is empty. */
  lemma {:induction false} SpanIsMaxLevel(charts: seq<Chart>, filter: string)
    ensures forall j :: 0 <= j < |charts| && InCategory(charts[j], filter) ==>
                        charts[j].displayLevel.level < Span(charts, filter)
    ensures Span(charts, filter) == 0 <==> forall j :: 0 <= j < |charts| ==> !InCategory(charts[j], filter)
    ensures Span(charts, filter) > 0 ==>
              exists j :: 0 <= j < |charts| && InBucket(charts[j], filter, Span(charts, filter) - 1)
  {
    if |charts| > 0 {
      var init := charts[..|charts| - 1];
      SpanIsMaxLevel(init, filter);
      assert forall j :: 0 <= j < |init| ==> init[j] == charts[j];
      if Span(charts, filter) > 0 && Span(charts, filter) == Span(init, filter) {
        var j :| 0 <= j < |init| && InBucket(init[j], filter, Span(init, filter) - 1);
        assert InBucket(charts[j], filter, Span(charts, filter) - 1);
      }
    }
  }

  /** A bucket is non-empty exactly when some chart of the category has that level. */
  lemma {:induction false} BucketCountPositive(charts: seq<Chart>, filter: string, lvl: nat)
    ensures BucketCount(charts, filter, lvl) > 0 <==> exists j :: 0 <= j < |charts| && InBucket(charts[j], filter, lvl)
  {
    if |charts| > 0 {
      var init := charts[..|charts| - 1];
      BucketCountPositive(init, filter, lvl);
      assert forall j :: 0 <= j < |init| ==> init[j] == charts[j];
    }
  }

  /** Levels at or beyond the span have no charts. */
  lemma {:induction false} BucketBeyondSpanEmpty(charts: seq<Chart>, filter: string, lvl: nat)
    requires lvl >= Span(charts, filter)
    ensures BucketCount(charts, filter, lvl) == 0 && BucketSum(charts, filter, lvl) == 0.0
  {
    if |charts| > 0 {
      BucketBeyondSpanEmpty(charts[..|charts| - 1], filter, lvl);
    }
  }

  /** n copies of a added up. */
  function Repeat(a: real, n: nat): real
  {
    if n == 0 then 0.0 else Repeat(a, n - 1) + a
  }

  lemma {:induction false} RepeatIsProduct(a: real, n: nat)
    ensures Repeat(a, n) == a * n as real
  {
    if n > 0 {
      RepeatIsProduct(a, n - 1);
      assert a * (n - 1) as real + a == a * n as real;
    }
  }

  /** If every chart of a bucket has its easy difficulty in [lo, hi], the bucket sum lies between count copies of lo and of hi. */
  lemma {:induction false} BucketSumBounds(charts: seq<Chart>, filter: string, lvl: nat, lo: real, hi: real)
    requires forall j :: 0 <= j < |charts| && InBucket(charts[j], filter, lvl) ==> lo <= charts[j].betaEasy <= hi
    ensures Repeat(lo, BucketCount(charts, filter, lvl)) <= BucketSum(charts, filter, lvl)
    ensures BucketSum(charts, filter, lvl) <= Repeat(hi, BucketCount(charts, filter, lvl))
  {
    if |charts| > 0 {
      var init := charts[..|charts| - 1];
      assert forall j :: 0 <= j < |init| ==> init[j] == charts[j];
      BucketSumBounds(init, filter, lvl, lo, hi);
    }
  }

  lemma MeanBetween(sum: real, n: nat, lo: real, hi: real)
    requires n > 0 && Repeat(lo, n) <= sum <= Repeat(hi, n)
    ensures lo <= sum / n as real <= hi
  {
    RepeatIsProduct(lo, n);
    RepeatIsProduct(hi, n);
    var q := sum / n as real;
    assert q * n as real == sum;
    assert (q - lo) * n as real >= 0.0;
    assert (hi - q) * n as real >= 0.0;
  }

  /** The mean of a non-empty bucket lies between the smallest and largest easy difficulty in it. */
  lemma BucketMeanWithinBounds(charts: seq<Chart>, filter: string, lvl: nat, lo: real, hi: real)
    requires forall j :: 0 <= j < |charts| && InBucket(charts[j], filter, lvl) ==> lo <= charts[j].betaEasy <= hi
    requires BucketCount(charts, filter, lvl) > 0
    ensures lo <= BucketSum(charts, filter, lvl) / BucketCount(charts, filter, lvl) as real <= hi
  {
    var n, sum := BucketCount(charts, filter, lvl), BucketSum(charts, filter, lvl);
    BucketSumBounds(charts, filter, lvl, lo, hi);
    MeanBetween(sum, n, lo, hi);
  }

  /**
   * Buckets the charts of category `filter` by level and returns the mean easy difficulty
   * of each bucket, from level 0 up to the largest level seen; a level with no chart below
   * that maximum makes the final division fail.
   */
  method GetAverageList(charts: seq<Chart>, filter: string) returns (r: Result<seq<real>, CalibrationError>)
    ensures r.Success? <==> forall lvl :: 0 <= lvl < Span(charts, filter) ==> BucketCount(charts, filter, lvl) > 0
    ensures r.Success? ==> |r.value| == Span(charts, filter)
    ensures r.Success? ==> forall lvl :: 0 <= lvl < |r.value| ==>
                             r.value[lvl] == BucketSum(charts, filter, lvl) / BucketCount(charts, filter, lvl) as real
    ensures r.Failure? ==> r.error.level < Span(charts, filter) && BucketCount(charts, filter, r.error.level) == 0
    ensures r.Failure? ==> forall lvl :: 0 <= lvl < r.error.level ==> BucketCount(charts, filter, lvl) > 0
  {
    var sumBeta: seq<real> := [];
    var nums: seq<nat> := [];
    for k := 0 to |charts|
      invariant |nums| == |sumBeta| == Span(charts[..k], filter)
      invariant forall lvl :: 0 <= lvl < |nums| ==>
                  nums[lvl] == BucketCount(charts[..k], filter, lvl) && sumBeta[lvl] == BucketSum(charts[..k], filter, lvl)
    {
      assert charts[..k + 1][..k] == charts[..k];
      var song := charts[k];
      if song.displayLevel.prefix != filter {
        continue;
      }
      var level := song.displayLevel.level;
      while level >= |nums|
        invariant |nums| == |sumBeta|
        invariant Span(charts[..k], filter) <= |nums|
        invariant |nums| == Span(charts[..k], filter) || |nums| <= level + 1
        invariant forall lvl :: 0 <= lvl < |nums| ==>
                    nums[lvl] == BucketCount(charts[..k], filter, lvl) && sumBeta[lvl] == BucketSum(charts[..k], filter, lvl)
        decreases level - |nums|
      {
        BucketBeyondSpanEmpty(charts[..k], filter, |nums|);
        nums := nums + [0];
        sumBeta := sumBeta + [0.0];
      }
      nums := nums[level := nums[level] + 1];
      sumBeta := sumBeta[level := sumBeta[level] + song.betaEasy];
    }
    assert charts[..|charts|] == charts;
    r := BucketMeans(nums, sumBeta);
  }

  /** The mean of every bucket, failing at the first empty one. */
  method BucketMeans(nums: seq<nat>, sumBeta: seq<real>) returns (r: Result<seq<real>, CalibrationError>)
    requires |nums| == |sumBeta|
    ensures r.Success? <==> forall lvl :: 0 <= lvl < |nums| ==> nums[lvl] > 0
    ensures r.Success? ==> |r.value| == |nums| &&
                           forall lvl :: 0 <= lvl < |nums| ==> r.value[lvl] == sumBeta[lvl] / nums[lvl] as real
    ensures r.Failure? ==> r.error.level < |nums| && nums[r.error.level] == 0 &&
                           forall lvl :: 0 <= lvl < r.error.level ==> nums[lvl] > 0
  {
    var ret: seq<real> := [];
    for i := 0 to |nums|
      invariant |ret| == i
      invariant forall lvl :: 0 <= lvl < i ==> nums[lvl] > 0 && ret[lvl] == sumBeta[lvl] / nums[lvl] as real
    {
      if nums[i] == 0 {
        return Failure(EmptyBucket(i));
      }
      ret := ret + [sumBeta[i] / nums[i] as real];
    }
    return Success(ret);
  }
}
