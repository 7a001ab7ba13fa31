/**
 * The race performance chart: the data prepared for it (a copy of the records
 * sorted by date, and the label, pace and distance series read off that copy),
 * the handling of the chart instance held in a ref, and the tooltip unit.
 * Chart options and drawing are not modelled; dates are integer keys.
 */
module PerformanceChart {
  import opened Wrappers
  import opened RaceStats

  predicate SortedByDate(s: seq<RaceRecord>)
  {
    forall i, j :: 0 <= i < j < |s| ==> s[i].date <= s[j].date
  }

  /** Places r in front of the first record of `sorted` whose date is not earlier. */
  function InsertByDate(r: RaceRecord, sorted: seq<RaceRecord>): (res: seq<RaceRecord>)
    requires SortedByDate(sorted)
    ensures SortedByDate(res)
    ensures forall x :: x in res ==> x == r || x in sorted
    ensures multiset(res) == multiset(sorted) + multiset{r}
  {
    if sorted == [] || r.date <= sorted[0].date then
      PrependSorted(r, sorted);
      [r] + sorted
    else
      var rest := InsertByDate(r, sorted[1..]);
      assert sorted == [sorted[0]] + sorted[1..];
      PrependSorted(sorted[0], rest);
      [sorted[0]] + rest
  }

  /** A record no later than the first of a sorted sequence can go in front of it. */
  lemma PrependSorted(x: RaceRecord, s: seq<RaceRecord>)
    requires SortedByDate(s)
    requires forall y :: y in s ==> x.date <= y.date
    ensures SortedByDate([x] + s)
  {
  }

  /**
   * `[...data].sort((a, b) => date(a) - date(b))`: a copy in ascending date
   * order holding the same records.
   */
  function SortByDate(s: seq<RaceRecord>): (res: seq<RaceRecord>)
    ensures SortedByDate(res)
    ensures multiset(res) == multiset(s)
    ensures |res| == |s|
  {
    if s == [] then []
    else
      var res := InsertByDate(s[0], SortByDate(s[1..]));
      assert s == [s[0]] + s[1..];
      assert |res| == |multiset(res)| == |multiset(s)| == |s|;
      res
  }

  /** Records already in date order come out of the sort unchanged. */
  lemma {:induction false} SortKeepsSortedInput(s: seq<RaceRecord>)
    requires SortedByDate(s)
    ensures SortByDate(s) == s
  {
    if s != [] {
      var tail := s[1..];
      assert SortedByDate(tail) by {
        forall i, j | 0 <= i < j < |tail| ensures tail[i].date <= tail[j].date {
          assert tail[i] == s[i + 1] && tail[j] == s[j + 1];
        }
      }
      SortKeepsSortedInput(tail);
      assert s == [s[0]] + tail;
    }
  }

  /** The chart's inputs: one label (the date) and one point of each series per record. */
  datatype ChartData = ChartData(labels: seq<int>, paceSeries: seq<real>, distanceSeries: seq<real>)

  /**
   * The labels and the two series, each mapped over the sorted copy: as long
   * as the input, dates ascending, and index i of all three from one record.
   */
  function PrepareChartData(data: seq<RaceRecord>): (c: ChartData)
    ensures |c.labels| == |c.paceSeries| == |c.distanceSeries| == |data|
    ensures forall i, j :: 0 <= i < j < |c.labels| ==> c.labels[i] <= c.labels[j]
    ensures forall i :: 0 <= i < |data| ==>
              exists k :: 0 <= k < |data| && data[k].date == c.labels[i]
                          && data[k].pace == c.paceSeries[i] && data[k].distance == c.distanceSeries[i]
    ensures var sorted := SortByDate(data);
      forall i :: 0 <= i < |sorted| ==>
        c.labels[i] == sorted[i].date && c.paceSeries[i] == sorted[i].pace && c.distanceSeries[i] == sorted[i].distance
  {
    var sorted := SortByDate(data);
    var c := ChartData(seq(|sorted|, i requires 0 <= i < |sorted| => sorted[i].date),
                       seq(|sorted|, i requires 0 <= i < |sorted| => sorted[i].pace),
                       seq(|sorted|, i requires 0 <= i < |sorted| => sorted[i].distance));
    EveryRecordFromData(data, sorted);
    c
  }

  /** Each record of a permutation of `data` is a record of `data`. */
  lemma EveryRecordFromData(data: seq<RaceRecord>, sorted: seq<RaceRecord>)
    requires multiset(sorted) == multiset(data)
    ensures forall i :: 0 <= i < |sorted| ==> sorted[i] in data
  {
    forall i | 0 <= i < |sorted| ensures sorted[i] in data {
      assert sorted[i] in multiset(sorted);
    }
  }

  /** The summary cards and the chart agree: the sorted copy has the same statistics as the records. */
  lemma SortedCopyHasSameStats(data: seq<RaceRecord>)
    requires |data| > 0
    ensures |SortByDate(data)| > 0 && CalculateStats(SortByDate(data)) == CalculateStats(data)
  {
    StatsPermutation(data, SortByDate(data));
  }

  // ---------------------------------------------------------------------------
  // The chart instance held in `chartInstance.current`

  datatype Chart = Chart(serial: nat, data: ChartData)

  class ChartHost {
    /** `chartInstance.current`. */
    var instance: Option<Chart>
    /** The charts `destroy()` was called on, oldest first. */
    var destroyed: seq<Chart>
    /** The number of charts constructed so far (the serial of the next one). */
    var created: nat

    constructor ()
      ensures instance == None && destroyed == [] && created == 0
    {
      instance := None;
      destroyed := [];
      created := 0;
    }

    /**
     * The effect on `data`: nothing without a canvas or data; otherwise destroy
     * the held chart, and, given a drawing context, build and hold a new one.
     * The ref is not cleared after `destroy()`. Returns whether the effect
     * registered its cleanup.
     */
    method RunEffect(data: array<RaceRecord>, hasCanvas: bool, hasContext: bool) returns (cleanup: bool)
      modifies this
      ensures data[..] == old(data[..])
      ensures !hasCanvas || data.Length == 0 ==>
                instance == old(instance) && destroyed == old(destroyed) && created == old(created) && !cleanup
      ensures hasCanvas && data.Length > 0 ==>
                destroyed == old(destroyed) + if old(instance).Some? then [old(instance).value] else []
      ensures hasCanvas && data.Length > 0 && !hasContext ==>
                instance == old(instance) && created == old(created) && !cleanup
      ensures hasCanvas && data.Length > 0 && hasContext ==>
                && instance == Some(Chart(old(created), PrepareChartData(old(data[..]))))
                && created == old(created) + 1 && cleanup
    {
      cleanup := false;
      if !hasCanvas || data.Length == 0 {
        return;
      }
      if instance.Some? {
        destroyed := destroyed + [instance.value];
      }
      if !hasContext {
        return;
      }
      var copy := data[..];
      instance := Some(Chart(created, PrepareChartData(copy)));
      created := created + 1;
      cleanup := true;
    }

    /** The cleanup the effect returns: destroy the held chart, again without clearing the ref. */
    method Cleanup()
      modifies this
      ensures destroyed == old(destroyed) + if instance.Some? then [instance.value] else []
      ensures instance == old(instance) && created == old(created)
    {
      if instance.Some? {
        destroyed := destroyed + [instance.value];
      }
    }

    /**
     * `data` changes: React runs the previous cleanup and then the effect. As
     * the ref still holds the chart the cleanup destroyed, that chart is
     * destroyed a second time before the new one replaces it.
     */
    method DataChanged(data: array<RaceRecord>, hadCleanup: bool, hasCanvas: bool, hasContext: bool) returns (cleanup: bool)
      modifies this
      ensures data[..] == old(data[..])
      ensures var cleaned := old(destroyed) + if hadCleanup && old(instance).Some? then [old(instance).value] else [];
        && (!hasCanvas || data.Length == 0 ==>
              instance == old(instance) && destroyed == cleaned && created == old(created) && !cleanup)
        && (hasCanvas && data.Length > 0 ==>
              destroyed == cleaned + if old(instance).Some? then [old(instance).value] else [])
      ensures hasCanvas && data.Length > 0 && !hasContext ==>
                instance == old(instance) && created == old(created) && !cleanup
      ensures hasCanvas && data.Length > 0 && hasContext ==>
                && instance == Some(Chart(old(created), PrepareChartData(old(data[..]))))
                && created == old(created) + 1 && cleanup
      ensures hadCleanup && old(instance).Some? && hasCanvas && data.Length > 0 ==>
                destroyed == old(destroyed) + [old(instance).value, old(instance).value]
    {
      ghost var held, cleaned := instance, destroyed + if hadCleanup && instance.Some? then [instance.value] else [];
      if hadCleanup {
        Cleanup();
      }
      assert instance == held && destroyed == cleaned;
      cleanup := RunEffect(data, hasCanvas, hasContext);
      assert destroyed == cleaned + if hasCanvas && data.Length > 0 && held.Some? then [held.value] else [];
    }
  }

  // ---------------------------------------------------------------------------
  // Tooltip

  /** `s.includes(p)`. */
  function Contains(s: string, p: string): bool
    decreases |s|
  {
    |p| <= |s| && (s[..|p|] == p || (|s| > 0 && Contains(s[1..], p)))
  }

  /** The unit after a tooltip value: "min/km" when the dataset label mentions "Pace", else "km". */
  function TooltipUnit(datasetLabel: string): string
  {
    if Contains(datasetLabel, "Pace") then " min/km" else " km"
  }

  /** The tooltip line of a point: the dataset label, the value (its `toFixed(2)` text taken as given), the unit. */
  function TooltipText(datasetLabel: string, valueText: string): string
  {
    datasetLabel + ": " + valueText + TooltipUnit(datasetLabel)
  }

  /** `s.endsWith(suffix)`. */
  predicate EndsWith(s: string, suffix: string)
  {
    |suffix| <= |s| && s[|s| - |suffix|..] == suffix
  }

  /**
   * A tooltip line starts with the dataset label and ": ", and ends in
   * " min/km" exactly when the label mentions "Pace", and in " km" otherwise.
   */
  lemma TooltipTextUnit(datasetLabel: string, valueText: string)
    ensures var s := TooltipText(datasetLabel, valueText);
      && |datasetLabel| + 2 <= |s| && s[..|datasetLabel| + 2] == datasetLabel + ": "
      && (EndsWith(s, " min/km") <==> Contains(datasetLabel, "Pace"))
      && (!Contains(datasetLabel, "Pace") ==> EndsWith(s, " km"))
  {
    var s := TooltipText(datasetLabel, valueText);
    var head := datasetLabel + ": " + valueText;
    assert s == head + TooltipUnit(datasetLabel);
    assert s[..|datasetLabel| + 2] == datasetLabel + ": ";
    if !Contains(datasetLabel, "Pace") {
      assert s[|s| - 3..] == " km";
      if |s| >= 7 {
        assert s[|s| - 7..][4] == s[|s| - 3] == ' ';
      }
    } else {
      assert s[|s| - 7..] == " min/km";
    }
  }

  /** A text without the first character of p does not contain p. */
  lemma {:induction false} MissingFirstChar(s: string, p: string)
    requires |p| > 0 && forall i :: 0 <= i < |s| ==> s[i] != p[0]
    ensures !Contains(s, p)
  {
    if |p| <= |s| {
      assert s[..|p|][0] == s[0];
      if |s| > 0 {
        MissingFirstChar(s[1..], p);
      }
    }
  }

  /** The pace series gets "min/km" and the distance series "km". */
  lemma TooltipUnits()
    ensures TooltipUnit("Pace (min/km)") == " min/km"
    ensures TooltipUnit("Distance (km)") == " km"
  {
    var pace, distance := "Pace (min/km)", "Distance (km)";
    assert pace[..4] == "Pace";
    MissingFirstChar(distance, "Pace");
  }
}
