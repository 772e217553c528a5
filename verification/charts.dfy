/** Chart reference records and the sha256 lookup the pipeline builds over them. */
module Charts {

  /** The category part of a display level: its first two characters, such as "sl" or "st". */
  type Prefix = s: string | |s| == 2 witness "sl"

  /** A display level such as "sl7": a two-character category prefix and a level number. */
  datatype DisplayLevel = DisplayLevel(prefix: Prefix, level: nat)

  /** One row of the chart reference table, already parsed. */
  datatype Chart = Chart(
    title: string,
    displayLevel: DisplayLevel,
    md5: string,
    sha256: string,
    betaEasy: real,
    betaHard: real,
    alpha: real)

  /** The sha256 dictionary after inserting the charts in order: a later duplicate overwrites an earlier one. */
  function Index(charts: seq<Chart>): map<string, Chart>
  {
    if |charts| == 0 then map[]
    else Index(charts[..|charts| - 1])[charts[|charts| - 1].sha256 := charts[|charts| - 1]]
  }

  /** A key is present exactly when some chart has it, and it maps to the last such chart. */
  lemma {:induction false} IndexLastWins(charts: seq<Chart>, key: string)
    ensures key in Index(charts) <==> exists j :: 0 <= j < |charts| && charts[j].sha256 == key
    ensures forall j :: 0 <= j < |charts| && charts[j].sha256 == key &&
                        (forall k :: j < k < |charts| ==> charts[k].sha256 != key) ==>
                        key in Index(charts) && Index(charts)[key] == charts[j]
  {
    if |charts| > 0 {
      var init := charts[..|charts| - 1];
      IndexLastWins(init, key);
      assert forall j :: 0 <= j < |init| ==> init[j] == charts[j];
    }
  }

  /** Builds the sha256 dictionary by inserting every chart in turn. */
  method BuildShaIndex(charts: seq<Chart>) returns (index: map<string, Chart>)
    ensures index == Index(charts)
  {
    index := map[];
    for k := 0 to |charts|
      invariant index == Index(charts[..k])
    {
      assert charts[..k + 1][..k] == charts[..k];
      index := index[charts[k].sha256 := charts[k]];
    }
    assert charts[..|charts|] == charts;
  }
}
