/** The coarse lamp classifier: an integer clear code becomes one of four categories. */
module ClearTypes {

  /** Coarse clear category of a play. */
  datatype ClearType = NoPlay | Failed | Easy | Hard

  /** Position of a category in the order NoPlay < Failed < Easy < Hard. */
  function Rank(t: ClearType): nat
  {
    match t
    case NoPlay => 0
    case Failed => 1
    case Easy => 2
    case Hard => 3
  }

  /** Lamp codes 6 and up are hard clears, 4-5 easy clears, 1-3 failures, the rest no play. */
  function GetClearType(c: int): (r: ClearType)
    ensures r == Hard <==> 6 <= c
    ensures r == Easy <==> 4 <= c <= 5
    ensures r == Failed <==> 1 <= c <= 3
    ensures r == NoPlay <==> c <= 0
  {
    if c >= 6 then Hard
    else if c >= 4 then Easy
    else if c >= 1 then Failed
    else NoPlay
  }

  /** A better lamp code never yields a worse category. */
  lemma GetClearTypeMonotone(c1: int, c2: int)
    requires c1 <= c2
    ensures Rank(GetClearType(c1)) <= Rank(GetClearType(c2))
  {
  }

  /** The category's rank counts the thresholds 1, 4 and 6 that the lamp code reaches. */
  lemma GetClearTypeRankIsThresholdCount(c: int)
    ensures Rank(GetClearType(c)) == (if c >= 1 then 1 else 0) + (if c >= 4 then 1 else 0) + (if c >= 6 then 1 else 0)
  {
  }
}
