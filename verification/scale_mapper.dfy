/**
 * The scale mapper: converts a value on the latent difficulty scale to the display-level
 * scale by piecewise-linear interpolation between the calibration anchors, extrapolating
 * from the first and last segments outside the anchor range.
 */
module ScaleMapper {
  import opened Outcomes

  /**
   * NotIncreasing(k): the anchors at k and k + 1 are not strictly increasing (the assertion fails).
   * TooFewAnchors: fewer than two anchors, so the second anchor of segment 0 is out of range.
   */
  datatype ScaleError = TooFewAnchors | NotIncreasing(level: nat)

  predicate StrictlyIncreasing(avg: seq<real>)
  {
    forall i :: 0 <= i < |avg| - 1 ==> avg[i] < avg[i + 1]
  }

  predicate ValidAnchors(avg: seq<real>)
  {
    |avg| >= 2 && StrictlyIncreasing(avg)
  }

  /** Index of the first non-increasing adjacent pair at or after `from`. */
  function FirstDescentFrom(avg: seq<real>, from: nat): nat
    decreases |avg| - from
  {
    if from + 1 >= |avg| then from
    else if avg[from] >= avg[from + 1] then from
    else FirstDescentFrom(avg, from + 1)
  }

  /** The error raised for anchors that cannot be used. */
  function AnchorError(avg: seq<real>): ScaleError
  {
    if |avg| < 2 then TooFewAnchors else NotIncreasing(FirstDescentFrom(avg, 0))
  }

  lemma {:induction false} FirstDescentFromIs(avg: seq<real>, from: nat, k: nat)
    requires from <= k < |avg| - 1 && avg[k] >= avg[k + 1]
    requires forall j :: from <= j < k ==> avg[j] < avg[j + 1]
    ensures FirstDescentFrom(avg, from) == k
    decreases k - from
  {
    if from < k {
      FirstDescentFromIs(avg, from + 1, k);
    }
  }

  lemma {:induction false} FirstDescentFromSpec(avg: seq<real>, from: nat)
    requires exists k :: from <= k < |avg| - 1 && avg[k] >= avg[k + 1]
    ensures var k := FirstDescentFrom(avg, from);
            from <= k < |avg| - 1 && avg[k] >= avg[k + 1] && forall j :: from <= j < k ==> avg[j] < avg[j + 1]
    decreases |avg| - from
  {
    if avg[from] < avg[from + 1] {
      FirstDescentFromSpec(avg, from + 1);
    }
  }

  /** For anchors that are not strictly increasing, the error names their first non-increasing pair. */
  lemma AnchorErrorIsFirstDescent(avg: seq<real>)
    requires |avg| >= 2 && !StrictlyIncreasing(avg)
    ensures AnchorError(avg).NotIncreasing?
    ensures var k := AnchorError(avg).level;
            k < |avg| - 1 && avg[k] >= avg[k + 1] && forall j :: 0 <= j < k ==> avg[j] < avg[j + 1]
  {
    FirstDescentFromSpec(avg, 0);
  }

  /** The largest index below n whose anchor is at most c, or -1 if there is none. */
  function LastAtMost(avg: seq<real>, c: real, n: nat): (s: int)
    requires n <= |avg|
    ensures -1 <= s < n
  {
    if n == 0 then -1
    else if avg[n - 1] <= c then n - 1
    else LastAtMost(avg, c, n - 1)
  }

  lemma {:induction false} LastAtMostIsLargest(avg: seq<real>, c: real, n: nat)
    requires n <= |avg|
    ensures var s := LastAtMost(avg, c, n);
            (s == -1 || avg[s] <= c) && forall j :: s < j < n ==> c < avg[j]
  {
    if n > 0 && c < avg[n - 1] {
      LastAtMostIsLargest(avg, c, n - 1);
    }
  }

  /** The segment used for c: the largest i in [0, |avg| - 2] with avg[i] <= c, or 0 if there is none. */
  function Segment(avg: seq<real>, c: real): nat
    requires |avg| >= 2
  {
    var s := LastAtMost(avg, c, |avg| - 1);
    if s == -1 then 0 else s
  }

  /** The segment index always leaves room for the segment's right end, so clamping never happens. */
  lemma SegmentSpec(avg: seq<real>, c: real)
    requires |avg| >= 2
    ensures Segment(avg, c) <= |avg| - 2
    ensures avg[0] <= c || Segment(avg, c) > 0 ==> avg[Segment(avg, c)] <= c
    ensures forall j :: Segment(avg, c) < j <= |avg| - 2 ==> c < avg[j]
  {
    LastAtMostIsLargest(avg, c, |avg| - 1);
  }

  /** The display level of latent value c. */
  function LatentToLevel(avg: seq<real>, c: real): real
    requires ValidAnchors(avg)
  {
    var i := Segment(avg, c);
    SegmentSpec(avg, c);
    (c - avg[i]) / (avg[i + 1] - avg[i]) + i as real
  }

  lemma {:induction false} IncreasingTransitive(avg: seq<real>, i: nat, j: nat)
    requires StrictlyIncreasing(avg)
    requires i < j < |avg|
    ensures avg[i] < avg[j]
    decreases j - i
  {
    if i + 1 < j {
      IncreasingTransitive(avg, i + 1, j);
    }
  }

  /** Within the segment [avg[i], avg[i+1]) the segment index is i. */
  lemma SegmentOfInterior(avg: seq<real>, c: real, i: nat)
    requires ValidAnchors(avg)
    requires i <= |avg| - 2 && avg[i] <= c
    requires i < |avg| - 2 ==> c < avg[i + 1]
    ensures Segment(avg, c) == i
  {
    SegmentSpec(avg, c);
    var s := Segment(avg, c);
    if i + 1 < s {
      IncreasingTransitive(avg, i + 1, s);
    }
  }

  lemma QuotientBelowOne(x: real, d: real)
    requires 0.0 < d && x < d
    ensures x / d < 1.0
  {
  }

  lemma QuotientAboveOne(x: real, d: real)
    requires 0.0 < d && x > d
    ensures x / d > 1.0
  {
  }

  lemma QuotientNonNegative(x: real, d: real)
    requires 0.0 < d && 0.0 <= x
    ensures 0.0 <= x / d
  {
  }

  lemma QuotientMonotone(x1: real, x2: real, d: real)
    requires 0.0 < d && x1 < x2
    ensures x1 / d < x2 / d
  {
  }

  /** Between two consecutive anchors i and i + 1 the level lies in [i, i + 1). */
  lemma LatentToLevelInSegment(avg: seq<real>, c: real, i: nat)
    requires ValidAnchors(avg)
    requires i < |avg| - 1 && avg[i] <= c < avg[i + 1]
    ensures i as real <= LatentToLevel(avg, c) < i as real + 1.0
  {
    SegmentOfInterior(avg, c, i);
    QuotientBelowOne(c - avg[i], avg[i + 1] - avg[i]);
  }

  /** Every anchor maps exactly to its own level, the last one included. */
  lemma LatentToLevelAtAnchor(avg: seq<real>, i: nat)
    requires ValidAnchors(avg) && i < |avg|
    ensures LatentToLevel(avg, avg[i]) == i as real
  {
    if i < |avg| - 1 {
      SegmentOfInterior(avg, avg[i], i);
    } else {
      SegmentOfInterior(avg, avg[i], i - 1);
      var d := avg[i] - avg[i - 1];
      assert d / d == 1.0;
    }
  }

  /** Values below the first anchor extrapolate to a negative level. */
  lemma LatentToLevelBelow(avg: seq<real>, c: real)
    requires ValidAnchors(avg) && c < avg[0]
    ensures LatentToLevel(avg, c) < 0.0
  {
    SegmentSpec(avg, c);
    var s := Segment(avg, c);
    if s > 0 {
      IncreasingTransitive(avg, 0, s);
    }
    QuotientMonotone(c - avg[0], 0.0, avg[1] - avg[0]);
  }

  /** Values above the last anchor extrapolate to a level above the last one. */
  lemma LatentToLevelAbove(avg: seq<real>, c: real)
    requires ValidAnchors(avg) && c > avg[|avg| - 1]
    ensures LatentToLevel(avg, c) > (|avg| - 1) as real
  {
    var n := |avg|;
    IncreasingTransitive(avg, 0, n - 1);
    SegmentOfInterior(avg, c, n - 2);
    QuotientAboveOne(c - avg[n - 2], avg[n - 1] - avg[n - 2]);
  }

  /** The mapping is strictly increasing in the latent value. */
  lemma LatentToLevelStrictlyIncreasing(avg: seq<real>, c1: real, c2: real)
    requires ValidAnchors(avg) && c1 < c2
    ensures LatentToLevel(avg, c1) < LatentToLevel(avg, c2)
  {
    SegmentSpec(avg, c1);
    SegmentSpec(avg, c2);
    var i, j := Segment(avg, c1), Segment(avg, c2);
    if i == j {
      QuotientMonotone(c1 - avg[i], c2 - avg[i], avg[i + 1] - avg[i]);
    } else if i < j {
      // c1 lies left of anchor i + 1 and c2 right of anchor j >= i + 1
      assert c1 < avg[i + 1];
      QuotientBelowOne(c1 - avg[i], avg[i + 1] - avg[i]);
      assert avg[j] <= c2;
      QuotientNonNegative(c2 - avg[j], avg[j + 1] - avg[j]);
    }
    // i > j cannot happen: c2 < avg[i] <= c1 would contradict c1 < c2
  }

  /**
   * Converts latent value c to the display-level scale, checking on the way that every
   * adjacent pair of anchors is strictly increasing.
   */
  method BetaToStella(avg: seq<real>, c: real) returns (r: Result<real, ScaleError>)
    ensures ValidAnchors(avg) ==> r == Success(LatentToLevel(avg, c))
    ensures !ValidAnchors(avg) ==> r == Failure(AnchorError(avg))
  {
    var nowSt: int := -1;
    var pairs := if |avg| >= 1 then |avg| - 1 else 0;
    for level := 0 to pairs
      invariant nowSt == LastAtMost(avg, c, level)
      invariant forall j :: 0 <= j < level ==> avg[j] < avg[j + 1]
    {
      if avg[level] >= avg[level + 1] {
        FirstDescentFromIs(avg, 0, level);
        return Failure(NotIncreasing(level));
      }
      if avg[level] <= c {
        nowSt := level;
      }
    }
    if nowSt == -1 {
      nowSt := 0;
    } else if nowSt == |avg| {
      nowSt := |avg| - 1;
    }
    if |avg| < 2 {
      return Failure(TooFewAnchors);
    }
    assert ValidAnchors(avg);
    assert nowSt == Segment(avg, c);
    SegmentSpec(avg, c);
    var lo, hi := avg[nowSt], avg[nowSt + 1];
    assert lo < hi;
    r := Success((c - lo) / (hi - lo) + nowSt as real);
  }

  /** The worked example of anchors 10, 12, 14: interpolation inside and extrapolation on both sides. */
  lemma LatentToLevelExample()
    ensures ValidAnchors([10.0, 12.0, 14.0])
    ensures LatentToLevel([10.0, 12.0, 14.0], 11.0) == 0.5
    ensures LatentToLevel([10.0, 12.0, 14.0], 9.0) == -0.5
    ensures LatentToLevel([10.0, 12.0, 14.0], 15.0) == 2.5
  {
  }
}
