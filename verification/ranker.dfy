/**
 * The recommendation ranker: every easy or hard clear earns performance points from the
 * display level of the difficulty it beat; the plays are sorted by points, best first,
 * and cut to the requested number.
 */
module Ranker {
  import opened Outcomes
  import opened ClearTypes
  import opened Scores
  import opened Charts
  import opened ScaleMapper

  /** One row of the recommendation list. */
  datatype Entry = Entry(title: string, level: DisplayLevel, beta: real, pp: real, clear: ClearType)

  /** Performance points of a clear at latent difficulty `beta`: (level + 2) * 40. */
  function Pp(avg: seq<real>, beta: real): real
    requires ValidAnchors(avg)
  {
    (LatentToLevel(avg, beta) + 2.0) * 40.0
  }

  /** A clear at the difficulty of anchor i is worth (i + 2) * 40 points. */
  lemma PpAtAnchor(avg: seq<real>, i: nat)
    requires ValidAnchors(avg) && i < |avg|
    ensures Pp(avg, avg[i]) == (i as real + 2.0) * 40.0
  {
    LatentToLevelAtAnchor(avg, i);
  }

  /** A harder achievement is always worth strictly more points. */
  lemma PpStrictlyIncreasing(avg: seq<real>, b1: real, b2: real)
    requires ValidAnchors(avg) && b1 < b2
    ensures Pp(avg, b1) < Pp(avg, b2)
  {
    LatentToLevelStrictlyIncreasing(avg, b1, b2);
  }

  /** Points of a clear at `beta`; fails as the scale mapping does on unusable anchors. */
  method PpValue(avg: seq<real>, beta: real) returns (r: Result<real, ScaleError>)
    ensures ValidAnchors(avg) ==> r == Success(Pp(avg, beta))
    ensures !ValidAnchors(avg) ==> r == Failure(AnchorError(avg))
  {
    var st := BetaToStella(avg, beta);
    if st.Failure? {
      return Failure(st.error);
    }
    r := Success((st.value + 2.0) * 40.0);
  }

  /** A play kept for ranking: the chart it joins to, its category and the difficulty it beat. */
  datatype Achievement = Achievement(chart: Chart, clear: ClearType, beta: real)

  /** What one play contributes: nothing for no play, a failure or an unknown chart. */
  function AchievementOf(play: Score, index: map<string, Chart>): seq<Achievement>
  {
    var t := GetClearType(play.clear);
    if t == NoPlay || play.sha256 !in index || t == Failed then []
    else
      var chart := index[play.sha256];
      [Achievement(chart, t, if t == Easy then chart.betaEasy else chart.betaHard)]
  }

  /** The achievements of all plays, in play order. */
  function Achievements(plays: seq<Score>, index: map<string, Chart>): seq<Achievement>
  {
    if |plays| == 0 then []
    else Achievements(plays[..|plays| - 1], index) + AchievementOf(plays[|plays| - 1], index)
  }

  /**
   * A play is kept exactly when its lamp is easy or hard and its chart is known; the kept
   * difficulty is the chart's easy one for an easy clear and its hard one for a hard clear.
   */
  lemma AchievementOfSpec(play: Score, index: map<string, Chart>)
    ensures |AchievementOf(play, index)| <= 1
    ensures |AchievementOf(play, index)| == 1 <==> play.clear >= 4 && play.sha256 in index
    ensures |AchievementOf(play, index)| == 1 ==>
              var a := AchievementOf(play, index)[0];
              && a.chart == index[play.sha256]
              && (4 <= play.clear <= 5 ==> a.clear == Easy && a.beta == a.chart.betaEasy)
              && (6 <= play.clear ==> a.clear == Hard && a.beta == a.chart.betaHard)
  {
  }

  /** Every achievement comes from some play, and every play that qualifies yields one. */
  lemma {:induction false} AchievementsMembership(plays: seq<Score>, index: map<string, Chart>, a: Achievement)
    ensures a in Achievements(plays, index) <==>
              exists j :: 0 <= j < |plays| && AchievementOf(plays[j], index) == [a]
  {
    if |plays| > 0 {
      var init := plays[..|plays| - 1];
      AchievementsMembership(init, index, a);
      assert forall j :: 0 <= j < |init| ==> init[j] == plays[j];
      AchievementOfSpec(plays[|plays| - 1], index);
      var last := AchievementOf(plays[|plays| - 1], index);
      assert a in Achievements(plays, index) <==> a in Achievements(init, index) || a in last;
    }
  }

  /** The achievements of a prefix of the plays are never more than those of all plays. */
  lemma {:induction false} AchievementsPrefix(plays: seq<Score>, index: map<string, Chart>, k: nat)
    requires k <= |plays|
    ensures |Achievements(plays[..k], index)| <= |Achievements(plays, index)|
    decreases |plays| - k
  {
    if k < |plays| {
      AchievementsPrefix(plays, index, k + 1);
      assert plays[..k + 1][..k] == plays[..k];
    } else {
      assert plays[..k] == plays;
    }
  }

  lemma AchievementsStep(plays: seq<Score>, index: map<string, Chart>, k: nat)
    requires k < |plays|
    ensures Achievements(plays[..k + 1], index) == Achievements(plays[..k], index) + AchievementOf(plays[k], index)
  {
    assert plays[..k + 1][..k] == plays[..k];
  }

  function ToEntry(avg: seq<real>, a: Achievement): Entry
    requires ValidAnchors(avg)
  {
    Entry(a.chart.title, a.chart.displayLevel, a.beta, Pp(avg, a.beta), a.clear)
  }

  function Entries(avg: seq<real>, achievements: seq<Achievement>): seq<Entry>
    requires ValidAnchors(avg)
  {
    seq(|achievements|, i requires 0 <= i < |achievements| => ToEntry(avg, achievements[i]))
  }

  lemma EntriesSnoc(avg: seq<real>, achievements: seq<Achievement>, a: Achievement)
    requires ValidAnchors(avg)
    ensures Entries(avg, achievements + [a]) == Entries(avg, achievements) + [ToEntry(avg, a)]
  {
  }

  predicate SortedByPpDesc(s: seq<Entry>)
  {
    forall i, j :: 0 <= i < j < |s| ==> s[i].pp >= s[j].pp
  }

  /** Inserts e after every element whose points are at least e's. */
  function InsertByPp(s: seq<Entry>, e: Entry): seq<Entry>
  {
    if |s| == 0 || s[|s| - 1].pp >= e.pp then s + [e]
    else InsertByPp(s[..|s| - 1], e) + [s[|s| - 1]]
  }

  /** Stable sort by points, highest first: what sorting with key -pp does. */
  function SortByPpDesc(s: seq<Entry>): seq<Entry>
  {
    if |s| == 0 then []
    else InsertByPp(SortByPpDesc(s[..|s| - 1]), s[|s| - 1])
  }

  /** The elements of s whose points equal v, in order. */
  function WithPp(s: seq<Entry>, v: real): seq<Entry>
  {
    if |s| == 0 then []
    else WithPp(s[..|s| - 1], v) + (if s[|s| - 1].pp == v then [s[|s| - 1]] else [])
  }

  /** Where InsertByPp places e: after the last element whose points are at least e's. */
  function InsertPos(s: seq<Entry>, e: Entry): (m: nat)
    ensures m <= |s|
  {
    if |s| == 0 || s[|s| - 1].pp >= e.pp then |s| else InsertPos(s[..|s| - 1], e)
  }

  lemma {:induction false} InsertByPpIsSplice(s: seq<Entry>, e: Entry)
    ensures var m := InsertPos(s, e);
            && InsertByPp(s, e) == s[..m] + [e] + s[m..]
            && (m > 0 ==> s[m - 1].pp >= e.pp)
            && forall k :: m <= k < |s| ==> s[k].pp < e.pp
  {
    if |s| == 0 || s[|s| - 1].pp >= e.pp {
      assert s[..|s|] == s;
    } else {
      var init, last := s[..|s| - 1], s[|s| - 1];
      InsertByPpIsSplice(init, e);
      var m := InsertPos(init, e);
      assert InsertPos(s, e) == m;
      assert InsertByPp(s, e) == InsertByPp(init, e) + [last];
      assert s[..m] == init[..m];
      assert s[m..] == init[m..] + [last];
      assert forall k :: m <= k < |init| ==> s[k] == init[k];
    }
  }

  /** Putting e between a part of points at least e's and a part of points below e's keeps a sorted list sorted. */
  lemma SpliceSorted(s: seq<Entry>, e: Entry, m: nat)
    requires SortedByPpDesc(s) && m <= |s|
    requires m > 0 ==> s[m - 1].pp >= e.pp
    requires forall k :: m <= k < |s| ==> s[k].pp < e.pp
    ensures SortedByPpDesc(s[..m] + [e] + s[m..])
  {
    var t := s[..m] + [e] + s[m..];
    assert forall i :: 0 <= i < m ==> t[i] == s[i];
    assert forall i :: m < i < |t| ==> t[i] == s[i - 1];
    forall i, j | 0 <= i < j < |t| ensures t[i].pp >= t[j].pp {
      if i < m && j == m {
        assert s[i].pp >= s[m - 1].pp;
      }
    }
  }

  lemma SpliceMultiset(s: seq<Entry>, e: Entry, m: nat)
    requires m <= |s|
    ensures multiset(s[..m] + [e] + s[m..]) == multiset(s) + multiset{e}
    ensures |s[..m] + [e] + s[m..]| == |s| + 1
  {
    assert s == s[..m] + s[m..];
  }

  lemma InsertByPpSorted(s: seq<Entry>, e: Entry)
    requires SortedByPpDesc(s)
    ensures SortedByPpDesc(InsertByPp(s, e))
  {
    InsertByPpIsSplice(s, e);
    SpliceSorted(s, e, InsertPos(s, e));
  }

  lemma InsertByPpPermutes(s: seq<Entry>, e: Entry)
    ensures multiset(InsertByPp(s, e)) == multiset(s) + multiset{e}
    ensures |InsertByPp(s, e)| == |s| + 1
  {
    InsertByPpIsSplice(s, e);
    SpliceMultiset(s, e, InsertPos(s, e));
  }

  lemma {:induction false} InsertByPpStable(s: seq<Entry>, e: Entry, v: real)
    ensures WithPp(InsertByPp(s, e), v) == WithPp(s, v) + (if e.pp == v then [e] else [])
  {
    if |s| == 0 || s[|s| - 1].pp >= e.pp {
      assert (s + [e])[..|s|] == s;
    } else {
      var init, last := s[..|s| - 1], s[|s| - 1];
      InsertByPpStable(init, e, v);
      var ins := InsertByPp(init, e);
      assert InsertByPp(s, e) == ins + [last];
      assert (ins + [last])[..|ins|] == ins;
      // last has fewer points than e, so at most one of them has points v
      assert WithPp(ins + [last], v) == WithPp(ins, v) + (if last.pp == v then [last] else []);
    }
  }

  /** The sort orders its result by points, highest first. */
  lemma {:induction false} SortByPpDescSorted(s: seq<Entry>)
    ensures SortedByPpDesc(SortByPpDesc(s))
  {
    if |s| > 0 {
      var init := s[..|s| - 1];
      SortByPpDescSorted(init);
      InsertByPpSorted(SortByPpDesc(init), s[|s| - 1]);
    }
  }

  /** The sort is a permutation of its input. */
  lemma {:induction false} SortByPpDescPermutes(s: seq<Entry>)
    ensures multiset(SortByPpDesc(s)) == multiset(s)
    ensures |SortByPpDesc(s)| == |s|
  {
    if |s| > 0 {
      var init, last := s[..|s| - 1], s[|s| - 1];
      SortByPpDescPermutes(init);
      InsertByPpPermutes(SortByPpDesc(init), last);
      assert s == init + [last];
    }
  }

  /** Stability: entries with equal points keep their input order. */
  lemma {:induction false} SortByPpDescStable(s: seq<Entry>, v: real)
    ensures WithPp(SortByPpDesc(s), v) == WithPp(s, v)
  {
    if |s| > 0 {
      SortByPpDescStable(s[..|s| - 1], v);
      InsertByPpStable(SortByPpDesc(s[..|s| - 1]), s[|s| - 1], v);
    }
  }

  /** The prefix s[:m] of a Python list: a negative m counts from the end. */
  function PrefixOf(s: seq<Entry>, m: int): seq<Entry>
  {
    if m >= 0 then s[..if m < |s| then m else |s|]
    else s[..if |s| + m > 0 then |s| + m else 0]
  }

  /** Keeps at most maxNum entries. */
  function Truncate(s: seq<Entry>, maxNum: int): seq<Entry>
  {
    if |s| > maxNum then PrefixOf(s, maxNum) else s
  }

  /** Cutting a list sorted by points keeps a sorted prefix that outscores everything dropped. */
  lemma TruncateSpec(sorted: seq<Entry>, maxNum: int)
    requires SortedByPpDesc(sorted)
    ensures var r := Truncate(sorted, maxNum);
            var n := |sorted|;
            && SortedByPpDesc(r)
            && |r| == (if maxNum >= 0 then (if maxNum < n then maxNum else n)
                       else (if n + maxNum > 0 then n + maxNum else 0))
            && r == sorted[..|r|]
            && forall i, j :: 0 <= i < |r| <= j < |sorted| ==> sorted[j].pp <= r[i].pp
  {
  }

  /** The recommendation list the ranker produces on usable anchors. */
  function RankedPlays(avg: seq<real>, plays: seq<Score>, charts: seq<Chart>, maxNum: int): seq<Entry>
    requires ValidAnchors(avg)
  {
    Truncate(SortByPpDesc(Entries(avg, Achievements(plays, Index(charts)))), maxNum)
  }

  /**
   * The ranking is the best-first sort of all achievements cut to maxNum entries: it is
   * ordered by points, its length is min(maxNum, number of achievements) (a negative
   * maxNum drops that many from the end, as a Python slice does), and no dropped entry
   * has more points than a kept one.
   */
  lemma RankedPlaysSpec(avg: seq<real>, plays: seq<Score>, charts: seq<Chart>, maxNum: int)
    requires ValidAnchors(avg)
    ensures var r := RankedPlays(avg, plays, charts, maxNum);
            var n := |Achievements(plays, Index(charts))|;
            var sorted := SortByPpDesc(Entries(avg, Achievements(plays, Index(charts))));
            && SortedByPpDesc(r)
            && |r| == (if maxNum >= 0 then (if maxNum < n then maxNum else n)
                       else (if n + maxNum > 0 then n + maxNum else 0))
            && r == sorted[..|r|]
            && multiset(sorted) == multiset(Entries(avg, Achievements(plays, Index(charts))))
            && forall i, j :: 0 <= i < |r| <= j < |sorted| ==> sorted[j].pp <= r[i].pp
  {
    var entries := Entries(avg, Achievements(plays, Index(charts)));
    SortByPpDescSorted(entries);
    SortByPpDescPermutes(entries);
    TruncateSpec(SortByPpDesc(entries), maxNum);
  }

  /**
   * Scores the plays in order: skips plays without a lamp, plays of charts the index does
   * not know and failures; an easy clear is scored at the chart's easy difficulty and a hard
   * clear at its hard one. Fails as the scale mapping does at the first play it scores on
   * unusable anchors.
   */
  method CollectEntries(avg: seq<real>, plays: seq<Score>, shaIndex: map<string, Chart>)
    returns (r: Result<seq<Entry>, ScaleError>)
    ensures r.Failure? <==> !ValidAnchors(avg) && |Achievements(plays, shaIndex)| > 0
    ensures r.Failure? ==> r.error == AnchorError(avg)
    ensures r.Success? && ValidAnchors(avg) ==> r.value == Entries(avg, Achievements(plays, shaIndex))
    ensures r.Success? && !ValidAnchors(avg) ==> r.value == []
  {
    var ret: seq<Entry> := [];
    for k := 0 to |plays|
      invariant |Achievements(plays[..k], shaIndex)| == 0 ==> ret == []
      invariant |Achievements(plays[..k], shaIndex)| > 0 ==>
                  ValidAnchors(avg) && ret == Entries(avg, Achievements(plays[..k], shaIndex))
    {
      AchievementsStep(plays, shaIndex, k);
      ghost var done := Achievements(plays[..k], shaIndex);
      var score := plays[k];
      var clearResult := GetClearType(score.clear);
      if clearResult == NoPlay {
        continue;
      }
      if score.sha256 !in shaIndex {
        continue;
      }
      var song := shaIndex[score.sha256];
      var entry: Entry;
      if clearResult == Failed {
        continue;
      } else if clearResult == Easy {
        var pp := PpValue(avg, song.betaEasy);
        if pp.Failure? {
          AchievementsPrefix(plays, shaIndex, k + 1);
          return Failure(pp.error);
        }
        entry := Entry(song.title, song.displayLevel, song.betaEasy, pp.value, Easy);
        EntriesSnoc(avg, done, Achievement(song, Easy, song.betaEasy));
      } else {
        var pp := PpValue(avg, song.betaHard);
        if pp.Failure? {
          AchievementsPrefix(plays, shaIndex, k + 1);
          return Failure(pp.error);
        }
        entry := Entry(song.title, song.displayLevel, song.betaHard, pp.value, Hard);
        EntriesSnoc(avg, done, Achievement(song, Hard, song.betaHard));
      }
      ret := ret + [entry];
    }
    assert plays[..|plays|] == plays;
    return Success(ret);
  }

  /**
   * Ranks the plays: joins each play to its chart by sha256 (the last chart with a given
   * sha256 wins), keeps easy and hard clears of known charts, scores them, sorts them by
   * points, best first, and keeps at most maxNum.
   */
  method GetSortedPpData(avg: seq<real>, plays: seq<Score>, charts: seq<Chart>, maxNum: int)
    returns (r: Result<seq<Entry>, ScaleError>)
    ensures r.Failure? <==> !ValidAnchors(avg) && |Achievements(plays, Index(charts))| > 0
    ensures r.Failure? ==> r.error == AnchorError(avg)
    ensures r.Success? && ValidAnchors(avg) ==> r.value == RankedPlays(avg, plays, charts, maxNum)
    ensures r.Success? && !ValidAnchors(avg) ==> r.value == []
  {
    var shaIndex := BuildShaIndex(charts);
    var collected := CollectEntries(avg, plays, shaIndex);
    if collected.Failure? {
      return Failure(collected.error);
    }
    var ret := SortByPpDesc(collected.value);
    if |ret| > maxNum {
      ret := PrefixOf(ret, maxNum);
    }
    return Success(ret);
  }
}
