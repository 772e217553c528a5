/** The per-row refinement of the play-result store. */
module Scores {

  /** A row of the result store, with the columns the model reads. */
  datatype ScoreRow = ScoreRow(sha256: string, clear: int, epg: int, lpg: int, egr: int, lgr: int, minbp: int)

  /** A refined play record: chart identifier, lamp code, EX score and minimum bad+poor count. */
  datatype Score = Score(sha256: string, clear: int, score: int, minbp: int)

  /** The EX score weighs each perfect great (early or late) twice and each great once. */
  function RefineScoreData(row: ScoreRow): (r: Score)
    ensures r.sha256 == row.sha256 && r.clear == row.clear && r.minbp == row.minbp
    ensures r.score == 2 * (row.epg + row.lpg) + (row.egr + row.lgr)
  {
    Score(row.sha256, row.clear, row.epg * 2 + row.lpg * 2 + row.egr + row.lgr, row.minbp)
  }

  /** Number of notes judged perfect great or great. */
  function Judged(row: ScoreRow): int
  {
    row.epg + row.lpg + row.egr + row.lgr
  }

  /**
   * With non-negative counts the EX score lies between one and two points per
   * judged note, and reaches two points per note exactly when there is no great.
   */
  lemma RefineScoreBounds(row: ScoreRow)
    requires row.epg >= 0 && row.lpg >= 0 && row.egr >= 0 && row.lgr >= 0
    ensures 0 <= Judged(row) <= RefineScoreData(row).score <= 2 * Judged(row)
    ensures RefineScoreData(row).score == 2 * Judged(row) <==> row.egr + row.lgr == 0
  {
  }
}
