# Shobon Stella Recommend — verified model of the skill and recommendation pipeline

This project models, in Dafny, the deterministic part of `main.py` of Shobon Stella
Recommend, a tool that estimates a BMS player's level on the "sl"/"st" difficulty tables
and lists the player's best clears by performance points (pp):

- **Score refinement** (`Scores`): a row of the result store becomes a play record with the
  EX score 2·(early + late perfect greats) + (early + late greats); sha256, lamp code and
  minimum bad+poor are copied.
- **Clear classifier** (`ClearTypes`): a lamp code becomes No Play, Failed, Easy or Hard.
- **Chart index** (`Charts`): charts are typed records; the sha256 dictionary keeps the last
  chart with a given sha256.
- **Level calibrator** (`Calibration`): for one category prefix, the mean easy difficulty
  (`beta_easy`) of each display level, from level 0 to the largest level seen. A level with
  no chart below that maximum makes the source divide by zero; the model returns
  `Failure(EmptyBucket(level))` for the first such level.
- **Scale mapper** (`ScaleMapper`): a latent difficulty becomes a display level by
  piecewise-linear interpolation between the calibration anchors, extrapolating from the
  first and last segment. Fewer than two anchors (an index error in the source) and a
  non-increasing adjacent pair (an assertion failure) are modelled as `Failure` results.
- **Recommendation ranker** (`Ranker`): pp = (level + 2)·40; easy and hard clears of known
  charts are scored with `beta_easy` or `beta_hard`, sorted by pp highest first with a
  stable sort, and cut to `max_num` entries.
- **Likelihood selection rule** (`Likelihood`): which plays enter the likelihood and which
  probability mass (1−p1, p1−p2 or p2) each category takes, with p1 and p2 as inputs.

The functions and loops that the source runs step by step (`get_average_list`,
`beta_to_stella`, `get_sorted_pp_data`, and the sha256 dictionary it fills) are methods with
loop invariants, each proved equal to a specification function (`Span`/`BucketSum`/
`BucketCount`, `LatentToLevel`, `RankedPlays`, `Index`); the properties the tool relies on
are lemmas about those functions. Floating-point values are exact `real`s.

Three behaviours of the code are kept as written: the calibration table is indexed from
level 0; the clamp in `beta_to_stella` (main.py:88-89) compares the segment index with the
list length, which never happens, so the branch is kept and proved dead (`SegmentSpec`);
and `ret[:max_num]` with a negative `max_num` drops that many entries from the end, as a
Python slice does.

## Model

| member | source | states |
|---|---|---|
| `Scores.RefineScoreData` | main.py:15-21 | sha256, clear and minbp are copied unchanged and the score is twice the perfect greats plus the greats |
| `Scores.RefineScoreBounds` | main.py:19 | with non-negative counts the score lies between one and two points per judged note, and is two per note exactly when there is no great |
| `ClearTypes.GetClearType` | main.py:52-60 | Hard exactly for c ≥ 6, Easy for 4 ≤ c ≤ 5, Failed for 1 ≤ c ≤ 3, No Play for c ≤ 0; total |
| `ClearTypes.GetClearTypeMonotone` | main.py:52-60 | a larger lamp code never gives a lower category in No Play < Failed < Easy < Hard |
| `ClearTypes.GetClearTypeRankIsThresholdCount` | main.py:52-60 | the category's rank is the number of the thresholds 1, 4 and 6 that the lamp code reaches |
| `Charts.IndexLastWins` | main.py:146-148 | a sha256 is in the dictionary iff some chart has it, and it maps to the last such chart |
| `Charts.BuildShaIndex` | main.py:146-148 | the dictionary built by the insertion loop is the last-write-wins index of the charts |
| `Calibration.SpanIsMaxLevel` | main.py:66-72 | the bucket lists end one past the largest level of a chart of the category, and are empty iff no chart matches the prefix |
| `Calibration.BucketCountPositive` | main.py:67-73 | a level's bucket count is positive iff some chart of the category has that level |
| `Calibration.BucketBeyondSpanEmpty` | main.py:70-72 | levels at or beyond the list length have count 0 and sum 0, so appended buckets start empty |
| `Calibration.BucketSumBounds` | main.py:73-74 | if every chart of a bucket has easy difficulty in [lo, hi], the bucket sum lies between count copies of lo and count copies of hi |
| `Calibration.BucketMeanWithinBounds` | main.py:75 | the mean of a non-empty bucket lies between the smallest and largest easy difficulty in it |
| `Calibration.BucketMeans` | main.py:75 | fails at the first bucket of count 0; otherwise entry i is bucket i's sum divided by its count |
| `Calibration.GetAverageList` | main.py:63-76 | succeeds iff every level below the maximum has a chart; then the length is the span and entry i is bucket i's sum over its count; otherwise fails at the first empty level |
| `ScaleMapper.FirstDescentFromSpec` | main.py:81-82 | the scan from a position finds the first non-increasing pair after it |
| `ScaleMapper.AnchorErrorIsFirstDescent` | main.py:81-82 | for anchors that are not strictly increasing the error names their first non-increasing adjacent pair |
| `ScaleMapper.LastAtMostIsLargest` | main.py:80-84 | the loop's index is the largest position below the bound whose anchor is ≤ c, or -1 |
| `ScaleMapper.SegmentSpec` | main.py:80-89 | the segment index is at most len−2 (so the clamp never fires), its anchor is ≤ c unless c is below every anchor, and every later anchor up to len−2 exceeds c |
| `ScaleMapper.SegmentOfInterior` | main.py:80-87 | for avg[i] ≤ c < avg[i+1] (or c ≥ avg[len−2] on the last segment) the chosen segment is i |
| `ScaleMapper.LatentToLevelInSegment` | main.py:91 | when avg[i] ≤ c < avg[i+1] the level lies in [i, i+1) |
| `ScaleMapper.LatentToLevelAtAnchor` | main.py:91 | every anchor maps exactly to its own index, the last one included |
| `ScaleMapper.LatentToLevelBelow` | main.py:86-91 | a value below the first anchor extrapolates to a negative level |
| `ScaleMapper.LatentToLevelAbove` | main.py:80-91 | a value above the last anchor extrapolates to a level above len−1 |
| `ScaleMapper.LatentToLevelStrictlyIncreasing` | main.py:79-91 | the level is strictly increasing in the latent value |
| `ScaleMapper.LatentToLevelExample` | main.py:79-91 | with anchors 10, 12, 14: 11 maps to 0.5, 9 to −0.5 and 15 to 2.5 |
| `ScaleMapper.BetaToStella` | main.py:79-91 | on at least two strictly increasing anchors returns the interpolated level; otherwise fails with too few anchors or with the first non-increasing pair |
| `Ranker.PpAtAnchor` | main.py:139-140 | a clear at the difficulty of anchor i is worth (i + 2)·40 points |
| `Ranker.PpStrictlyIncreasing` | main.py:139-140 | a harder achievement is worth strictly more points |
| `Ranker.PpValue` | main.py:139-140 | returns (level + 2)·40 of the scale mapping, or its failure |
| `Ranker.AchievementOfSpec` | main.py:150-177 | a play is kept iff its lamp code is ≥ 4 and its sha256 is known; Easy keeps beta_easy and Hard beta_hard of the joined chart |
| `Ranker.AchievementsMembership` | main.py:150-179 | an achievement is listed iff some play yields it |
| `Ranker.AchievementsPrefix` | main.py:150-179 | the plays scanned so far never yield more achievements than all plays |
| `Ranker.InsertByPpIsSplice` | main.py:181 | insertion places the entry after every entry with at least its pp and before the rest |
| `Ranker.InsertByPpSorted` | main.py:181 | inserting into a list sorted by pp keeps it sorted |
| `Ranker.InsertByPpPermutes` | main.py:181 | insertion adds exactly the new entry |
| `Ranker.InsertByPpStable` | main.py:181 | the inserted entry lands after every entry of equal pp |
| `Ranker.SortByPpDescSorted` | main.py:181 | the sort orders entries by pp, highest first |
| `Ranker.SortByPpDescPermutes` | main.py:181 | the sort is a permutation of its input |
| `Ranker.SortByPpDescStable` | main.py:181 | the sort keeps input order among entries of equal pp |
| `Ranker.TruncateSpec` | main.py:182-183 | cutting a sorted list keeps a sorted prefix of length min(max_num, length) (length + max_num, at least 0, for negative max_num) that outscores every dropped entry |
| `Ranker.RankedPlaysSpec` | main.py:181-184 | the result is sorted by pp, is a prefix of the sorted achievements of length min(max_num, count) (count + max_num, at least 0, for negative max_num), and no dropped entry outscores a kept one |
| `Ranker.CollectEntries` | main.py:150-179 | fails iff some play is kept and the anchors are unusable; otherwise returns the scored achievements in play order |
| `Ranker.GetSortedPpData` | main.py:143-184 | fails iff some play is kept and the anchors are unusable (with the scale mapper's error); otherwise returns the ranked plays |
| `Likelihood.ProbabilityMass` | main.py:117-124 | No Play has no mass; every other category has one |
| `Likelihood.ProbabilityMassPartition` | main.py:117-122 | the Failed, Easy and Hard masses add to 1 and are non-negative when 0 ≤ p2 ≤ p1 ≤ 1 |
| `Likelihood.RecordMass` | main.py:104-109 | a play enters the likelihood iff its lamp code is ≥ 1 and its sha256 is known |
| `Likelihood.RankedPlayInLikelihood` | main.py:104-122 | every play the ranker keeps enters the likelihood with the mass of its Easy or Hard category |
| `Likelihood.RecordMassOfKnownPlay` | main.py:104-122 | a play on a known chart contributes 1 − p1 for lamp codes 1-3, p1 − p2 for 4-5 and p2 for 6 and up |

## Left out

- `get_score_list` (main.py:24-31): reading the SQLite result store is I/O; the model starts from `ScoreRow` values.
- `get_song_list` (main.py:34-49): reading and parsing the CSV chart table, the `has_data` assertion and the near-beta warning are I/O and boundary validation; the model starts from typed `Chart` records whose display level is already split into a two-character prefix and a non-negative level (a negative or non-numeric level string is not modelled).
- `prob_grm` and `negative_log_likelihood` (main.py:94-126): the logistic probability, the logarithm and the 1e-9 floor need transcendental floating-point arithmetic; only the per-record selection rule is modelled, with p1 and p2 as inputs.
- `max_likelihood_estimation` (main.py:129-136): a call into SciPy's bounded scalar minimiser, which is not part of this model.
- The top-level script (main.py:186-204): global state, printing and the error raised when the optimiser fails.
- `sub.py`: HTML report templating and CSS class selection, a rendering concern.
- Sorting (main.py:181): Python's `list.sort` is a library call; the model states its result as a stable insertion sort by pp, highest first, rather than modelling the in-place algorithm.
- Floating point: all difficulties, means and pp values are exact reals, so results can differ from Python floats in the last bits, and no NaN or infinity arises.
