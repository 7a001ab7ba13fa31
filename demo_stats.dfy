/**
 * The demo statistics page: eight sample races and the summary computed over
 * them at module level, with the same formulas as the race-statistics card.
 * Dates are written as yyyymmdd integers.
 */
module DemoStats {
  import opened RaceStats
  import opened FinishTime
  import opened PerformanceChart

  const SampleRaceData: seq<RaceRecord> := [
    RaceRecord(20230315, 245, 42.20, 5.80, "Spring City Marathon"),
    RaceRecord(20230520, 118, 21.10, 5.59, "Summer Beach Run"),
    RaceRecord(20230708, 92, 15.00, 6.13, "Mountain Trail Challenge"),
    RaceRecord(20230912, 115, 21.10, 5.45, "Autumn Park Half Marathon"),
    RaceRecord(20231203, 52, 10.00, 5.20, "Winter Wonderland 10K"),
    RaceRecord(20240101, 54, 10.00, 5.40, "New Year Resolution Run"),
    RaceRecord(20240214, 236, 42.20, 5.59, "Valentine Day Marathon"),
    RaceRecord(20240301, 86, 15.00, 5.73, "Spring Festival 15K")
  ]

  /** `data.map(race => race.pace)`. */
  function Paces(data: seq<RaceRecord>): (ps: seq<real>)
    ensures |ps| == |data| && forall i :: 0 <= i < |data| ==> ps[i] == data[i].pace
  {
    seq(|data|, i requires 0 <= i < |data| => data[i].pace)
  }

  /** `Math.min(...xs)` over a non-empty list, taken from the front: the least element, which the list holds. */
  function MinOf(xs: seq<real>): (m: real)
    requires |xs| > 0
    ensures forall i :: 0 <= i < |xs| ==> m <= xs[i]
    ensures exists i :: 0 <= i < |xs| && m == xs[i]
  {
    if |xs| == 1 then xs[0]
    else
      var rest := MinOf(xs[1..]);
      assert forall i :: 1 <= i < |xs| ==> xs[i] == xs[1..][i - 1];
      Min(xs[0], rest)
  }

  /**
   * The page's `stats` object before `toFixed`: the length, the `reduce` of
   * the distances, `Math.min` over the mapped paces, and the `reduce`
   * recomputed and divided by the length.
   */
  function PageStats(data: seq<RaceRecord>): Stats
    requires |data| > 0
  {
    Stats(|data|, TotalDistance(data), MinOf(Paces(data)), TotalDistance(data) / (|data| as real))
  }

  /** The demo page and the statistics card compute the same summary of any non-empty list of records. */
  lemma PageStatsAgree(data: seq<RaceRecord>)
    requires |data| > 0
    ensures PageStats(data) == CalculateStats(data)
  {
    var m, b := MinOf(Paces(data)), BestPace(data);
    var i :| 0 <= i < |data| && m == Paces(data)[i];
    var j :| 0 <= j < |data| && b == data[j].pace;
    assert m <= Paces(data)[j] == b;
    assert b <= data[i].pace == m;
  }

  /** The distances of the samples add up to 176.6 km. */
  lemma SampleTotalDistance()
    ensures TotalDistance(SampleRaceData) == 176.6
  {
    var s := SampleRaceData;
    assert s[..1] == [s[0]];
    assert TotalDistance(s[..1]) == 42.20;
    assert s[..2][..1] == s[..1];
    assert TotalDistance(s[..2]) == 63.30;
    assert s[..3][..2] == s[..2];
    assert TotalDistance(s[..3]) == 78.30;
    assert s[..4][..3] == s[..3];
    assert TotalDistance(s[..4]) == 99.40;
    assert s[..5][..4] == s[..4];
    assert TotalDistance(s[..5]) == 109.40;
    assert s[..6][..5] == s[..5];
    assert TotalDistance(s[..6]) == 119.40;
    assert s[..7][..6] == s[..6];
    assert TotalDistance(s[..7]) == 161.60;
    assert s[..8] == s;
  }

  /** Eight races, 176.6 km in all, best pace 5.20, mean distance 22.075 km. */
  lemma SampleStatsValues()
    ensures PageStats(SampleRaceData) == Stats(8, 176.6, 5.20, 22.075)
  {
    SampleTotalDistance();
    PageStatsAgree(SampleRaceData);
    var s := SampleRaceData;
    var best := BestPace(s);
    assert best <= s[4].pace == 5.20;
    assert best >= 5.20 by {
      var i :| 0 <= i < |s| && best == s[i].pace;
    }
  }

  /** The first sample renders "4:05" and the fifth "0:52". */
  lemma SampleFinishTimesRender()
    ensures FormatFinishTime(SampleRaceData[0].finishTime) == "4:05"
    ensures FormatFinishTime(SampleRaceData[4].finishTime) == "0:52"
  {
  }

  /** The samples are listed in date order, so the chart's sorted copy is the list itself. */
  lemma SampleDataAlreadySorted()
    ensures SortByDate(SampleRaceData) == SampleRaceData
  {
    assert SortedByDate(SampleRaceData);
    SortKeepsSortedInput(SampleRaceData);
  }
}
